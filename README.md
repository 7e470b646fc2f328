# argocd-offline-cli preview core, in Dafny

This project models the preview core of argocd-offline-cli. That is the part of the
`appset preview-apps` and `appset preview-resources` commands that runs without a server:

- **Credential resolution** (preview/helm.go). The Helm repositories file is loaded into package
  state. A repository URL gets a username and a password. Each one is a non-blank
  `HELM_REPO_USERNAME` / `HELM_REPO_PASSWORD` override if set. Otherwise it comes from the first
  repository in the file whose URL matches the query once at most one trailing `/` is dropped
  from each side. Failing both, it is empty.
- **Application generation** (`generateApplications`). Only the first ApplicationSet of the file
  is expanded. More than one adds a warning, and no ApplicationSet at all is an error.
- **The generator registry** (`getAppSetGenerators`). List sits at every level. Matrix and Merge
  sit at the top and nested levels, and the nested Matrix and Merge see only List.
- **`preview-apps`** (`PreviewApplications`). It filters Applications by name and prints them in
  the `name`, `json` or `yaml` format.
- **`preview-resources`** (`PreviewResources`). For each selected Application it sends a manifest
  request with the resolved credentials and decodes the manifests. It groups them by lower-cased
  kind, sorts the kinds with `sort.Strings` and prints the groups.

The modules follow the program:

| module | file | models |
|---|---|---|
| `Strings` | strings.dfy | `strings.TrimSpace` (Go's `unicode.IsSpace`), `strings.TrimSuffix`, `strings.ToLower`, byte-wise string order |
| `Sorting` | sorting.dfy | `sort.Strings` as an in-place array sort, and the one sorted sequence of a set |
| `Helm` | helm.dfy | preview/helm.go: a class for the package variable `localHelmFile` and its lookups |
| `Generators` | generators.dfy | `getAppSetGenerators` |
| `Preview` | preview.dfy | the values the commands handle, the name filter `shouldMatch`, and what a run emits |
| `Applications` | applications.dfy | `generateApplications` and `PreviewApplications` |
| `Grouping` | grouping.dfy | the manifest loop and the kind list of `PreviewResources` |
| `Resources` | resources.dfy | the Application loop and the output switch of `PreviewResources` |

A command run is modelled as a `Run`:

- the events it emits, in order: lines on standard output, logged warnings, and structured prints;
- and the message of the fatal error it ends with, if any.

Foreign code becomes function parameters:

- the ApplicationSet loader's answer becomes `loaded`;
- the template engine becomes `expand`;
- the repository service's manifest generation becomes `render`;
- JSON decoding of a manifest becomes `parse`.

The process environment becomes a `map<string, string>`. Go's map iteration order becomes a
nondeterministic choice, and the model proves the printed order does not depend on it.

Where the code and the written description of the tool disagree, the model follows the code:

- `PreviewResources` checks the output format only inside the Application loop, after an
  Application has been rendered. If no Application is selected, an unknown format is not an
  error and nothing is printed (`Resources.UnknownFormatStopsAtFirst`).
- With an unknown format, the first selected Application is still rendered before the command stops.
- A manifest file with no ApplicationSet makes `appSets[0]` panic in Go. The model turns that
  into a fatal error carrying Go's index-out-of-range message.

## Model

| member | source | states |
|---|---|---|
| Strings.TrimLeftSpace | preview/helm.go:28 | the result is a suffix of the input; everything dropped is white space; the result does not start with white space |
| Strings.TrimRightSpace | preview/helm.go:28 | the result is a prefix of the input; everything dropped is white space; the result does not end with white space |
| Strings.TrimSpaceSlice | preview/helm.go:28 | `strings.TrimSpace` returns a contiguous slice of the input (`IsTrimmedSlice`), and everything it drops on either side is white space |
| Strings.TrimSpaceEnds | preview/helm.go:28 | the trimmed string neither starts nor ends with white space |
| Strings.TrimSpaceEmptyIff | preview/helm.go:28 | trimming gives "" exactly when every character is white space |
| Strings.TrimSuffix | preview/helm.go:44-46 | with the suffix present, the result plus the suffix is the input; otherwise the input is returned unchanged |
| Strings.TrimSuffixOnce | preview/helm.go:44-46 | only one copy of the suffix is removed: trimming `s + suffix` gives back `s` |
| Strings.LowerChar | preview/applicationset.go:126 | an upper-case ASCII letter becomes its own lower-case letter (code point plus 32); every other character is kept |
| Strings.ToLower | preview/applicationset.go:126 | same length; each character is lowered on its own |
| Strings.ToLowerIdempotent | preview/applicationset.go:126 | lower-casing twice is the same as once, so bucket keys are already lower case |
| Strings.LexLeReflexive | preview/applicationset.go:136 | the sort order is reflexive |
| Strings.LexLeTotal | preview/applicationset.go:136 | the sort order is total |
| Strings.LexLeAntisymmetric | preview/applicationset.go:136 | the sort order is antisymmetric |
| Strings.LexLeTransitive | preview/applicationset.go:136 | the sort order is transitive |
| Strings.DecimalString | preview/applicationset.go:169 | `%d` of a count: decimal digits that denote the count, with no leading zero |
| Sorting.SortInPlace | preview/applicationset.go:136 | `sort.Strings`: the array ends up sorted and is a permutation of its old contents |
| Sorting.Insert | preview/applicationset.go:136 | one insertion pass: the sorted prefix grows by one element, and the array stays a permutation |
| Sorting.SortedUnique | preview/applicationset.go:132-136 | two sorted sequences with the same elements are equal, so the sort result does not depend on map iteration order |
| Sorting.HasLeast | preview/applicationset.go:136 | a non-empty set of strings has a least element |
| Sorting.SortedSet | preview/applicationset.go:132-136 | the kind list: strictly sorted, and holding each element of the set exactly once |
| Generators.TerminalGenerators | preview/applicationset.go:181-183 | only List; no nesting |
| Generators.NestedGenerators | preview/applicationset.go:184-188 | List, Matrix and Merge; List is the terminal one; Matrix and Merge resolve from the terminal registry; exactly one level of nesting |
| Generators.GetAppSetGenerators | preview/applicationset.go:180-196 | List, Matrix and Merge; one List shared by all levels; Matrix and Merge resolve from the nested registry; exactly two levels of nesting |
| Generators.DepthMonotone | preview/applicationset.go:180-196 | a nesting bound also holds for every larger bound |
| Generators.TopLevelBounded | preview/applicationset.go:180-196 | every generator of the top-level registry nests at most two levels, under any bound of two or more |
| Helm.FirstMatch | preview/helm.go:45-49 | the position of the first repository whose URL matches, or none when no repository matches |
| Helm.EnvOverride | preview/helm.go:27-28 | an override exists exactly when the variable is set and not all white space, and it is the raw, untrimmed value |
| Helm.HelmRepositories.constructor | preview/helm.go:12 | no file is loaded and nothing was logged |
| Helm.HelmRepositories.LoadLocalHelmFile | preview/helm.go:18-24 | the loader's file is stored even when it also returned an error; an error only adds the warning "could not read helm local repository config: …" |
| Helm.HelmRepositories.FindHelmRepo | preview/helm.go:42-52 | the search answers the first matching repository of the loaded file, or the empty entry |
| Helm.HelmRepositories.FindRepoPassword | preview/helm.go:26-32 | the override, else the password of the looked-up entry |
| Helm.HelmRepositories.FindRepoUsername | preview/helm.go:34-40 | the override, else the username of the looked-up entry |
| Helm.FirstMatchAt | preview/helm.go:45-49 | any first-match position is the one the search returns |
| Helm.PasswordOverrideWins | preview/helm.go:27-30 | a set, non-blank password variable is the answer for every URL and every file |
| Helm.UsernameOverrideWins | preview/helm.go:35-38 | a set, non-blank username variable is the answer for every URL and every file |
| Helm.BlankOverrideFallsThrough | preview/helm.go:26-40 | unset or blank variables fall through to the file lookup |
| Helm.ResolutionIndependent | preview/helm.go:26-40 | the password variable never changes the username, and the username variable never changes the password |
| Helm.TrailingSlashIgnored | preview/helm.go:44-46 | a query URL with one added trailing "/" gets the same entry |
| Helm.FirstMatchSameKey | preview/helm.go:44-46 | query URLs that agree after trimming one "/" find the same repository |
| Helm.DoubleSlashNotIgnored | preview/helm.go:44-46 | only one "/" is dropped: "https://dummy//" does not find "https://dummy" |
| Helm.LaterEntriesIgnored | preview/helm.go:45-48 | once a match exists, repositories after it are never consulted |
| Helm.MissingEntryIsEmpty | preview/helm.go:43-51 | with no file or no match, the credentials are empty, not an error |
| Preview.ShouldMatch | preview/applicationset.go:198-200 | the name filter applies exactly when the name is non-empty |
| Preview.SelectApps | preview/applicationset.go:55-58 | the selection keeps exactly the selected Applications in order; it is everything without a filter, and only Applications of that name with one |
| Preview.SelectAppsSnoc | preview/applicationset.go:55-58 | one more Application is appended to the selection exactly when the filter selects it |
| Preview.SelectAppsPrefix | preview/applicationset.go:55-58 | the same, for a loop over a prefix |
| Preview.FirstNamed | preview/applicationset.go:62-68 | the position of the first Application with that name, or none when no Application has it |
| Preview.FirstNamedHeadsSelection | preview/applicationset.go:61-69 | under a filter, the first Application of that name is the head of the selection, and it is absent exactly when the selection is empty |
| Applications.GenerateApplications | preview/applicationset.go:163-178 | a loader error is fatal with "failed to construct ApplicationSet: "; more than one ApplicationSet logs exactly the warning "found N ApplicationSets, only previewing the first entry", otherwise nothing is logged; none is fatal with Go's index-out-of-range message; otherwise the result is what the first ApplicationSet expands to, or "failed to generate Application(s): " and the expansion error |
| Applications.OnlyFirstApplicationSet | preview/applicationset.go:168-171 | ApplicationSets after the first never change the generated Applications |
| Applications.ApplicationLines | preview/applicationset.go:57 | one `application/<name>` line per Application, in order |
| Applications.ApplicationLinesSnoc | preview/applicationset.go:57 | one more Application adds one more line at the end |
| Applications.Stamped | preview/applicationset.go:64-65 | the printed Application carries the Application API version and kind; its name, source and namespace are unchanged |
| Applications.PreviewApplications | preview/applicationset.go:50-76 | for each generation outcome and format: the fatal error, the name listing of the selection, the first named Application, the whole list, or "unknown output format: …" |
| Applications.PrintApplications | preview/applicationset.go:52-75 | the output switch: the name listing, the single named Application, the whole list, or the unknown-format error, each after the warnings |
| Applications.NameListing | preview/applicationset.go:53-59 | a NAME header, then one line per selected Application |
| Applications.PrintFirstNamed | preview/applicationset.go:61-69 | at most the first Application of that name is printed, stamped; nothing when none has that name |
| Grouping.Bucket | preview/applicationset.go:126-130 | a bucket holds exactly the resources of that kind |
| Grouping.BucketAppend | preview/applicationset.go:121-131 | buckets keep arrival order: the bucket of a concatenation is the concatenation of the buckets |
| Grouping.KindSet | preview/applicationset.go:126 | every key is lower case |
| Grouping.Buckets | preview/applicationset.go:120-131 | the map has one key per lower-cased kind present, and each key maps to its bucket |
| Grouping.BucketsHoldTheirKind | preview/applicationset.go:126-130 | no bucket is empty, and each holds only resources of its own kind |
| Grouping.BucketEmptyOutside | preview/applicationset.go:126-130 | a kind that is not present has an empty bucket |
| Grouping.KindSetSnoc | preview/applicationset.go:126-130 | one more resource adds its kind to the key set |
| Grouping.BucketsSnoc | preview/applicationset.go:127-130 | one more resource is appended to its own bucket, which is created if missing |
| Grouping.AddResource | preview/applicationset.go:126-130 | the map update puts the resource at the end of its kind's bucket, which starts empty if missing |
| Grouping.ParseAllSucceeds | preview/applicationset.go:121-124 | when every manifest decodes, the result is the decoded resources in order |
| Grouping.ParseAllFailsAt | preview/applicationset.go:121-124 | the first manifest that does not decode gives the error |
| Grouping.GroupByKind | preview/applicationset.go:120-131 | the loop yields the first decoding error, or the buckets of all decoded resources |
| Grouping.SortedKinds | preview/applicationset.go:132-136 | whatever the map iteration order, the kind list is the sorted list of the map's keys |
| Grouping.FlattenSnoc | preview/applicationset.go:139-154 | a new resource is listed once if its kind is listed, and not otherwise |
| Grouping.FlattenNothing | preview/applicationset.go:139-154 | no resources, nothing listed |
| Grouping.EveryResourceOnce | preview/applicationset.go:120-154 | listing the buckets of distinct kinds that cover all resources lists a permutation of the resources |
| Grouping.SortedBucketsPartition | preview/applicationset.go:120-154 | the printed groups hold every decoded resource exactly once |
| Resources.ResourceNames | preview/applicationset.go:147-149 | one `<kind>/<name>` line per resource of the bucket, in order |
| Resources.NameReportSnoc | preview/applicationset.go:139-150 | one more kind adds a blank line, except for the first kind, and then its group |
| Resources.ResourceNamesSnoc | preview/applicationset.go:147-149 | one more resource adds one more line at the end |
| Resources.PrintNames | preview/applicationset.go:139-150 | the flag-driven loop prints the groups separated by single blank lines |
| Resources.PrintGroup | preview/applicationset.go:146-149 | a NAME header, then the bucket's lines |
| Resources.NameReportBlankLines | preview/applicationset.go:139-150 | the output starts with NAME and holds exactly one blank line fewer than there are kinds |
| Resources.GroupLinesShape | preview/applicationset.go:146-148 | a group starts with NAME and holds no blank line |
| Resources.NameReportLength | preview/applicationset.go:139-150 | the output has one header per kind, one line per listed resource, and the separators |
| Resources.StdoutLines | preview/applicationset.go:144-148 | the lines are printed in order |
| Resources.ListReport | preview/applicationset.go:151-154 | one list print per kind, in kind order, each of that kind's bucket |
| Resources.PrintLists | preview/applicationset.go:151-154 | the list-printing loop prints one list per kind, in order |
| Resources.ReportResources | preview/applicationset.go:132-158 | the sorted kinds, then the name output, the list prints, or "unknown output format: …" |
| Resources.Request | preview/applicationset.go:104-115 | the request carries the Application's source, name and namespace, the source's repository URL, the username and password resolved for that URL, project "applications" and no cache |
| Resources.RenderApplication | preview/applicationset.go:104-158 | the request it sends, and the printed output or the fatal message for one Application |
| Resources.PreviewedAppsStep | preview/applicationset.go:102-160 | one step of the Application loop: skip, stop on a fatal error, or print and go on |
| Resources.PreviewResources | preview/applicationset.go:101-160 | the generation warnings, then the Application loop, or the generation's fatal error |
| Resources.RenderApplications | preview/applicationset.go:102-160 | the loop over Applications computes the run `PreviewedApps` defines |
| Resources.RenderStep | preview/applicationset.go:103-159 | one iteration either continues the loop or ends it with a fatal error |
| Resources.Requests | preview/applicationset.go:104-115 | one request per Application, in order |
| Resources.PreviewedRequests | preview/applicationset.go:102-117 | requests go only to selected Applications, in order; all of them when no error occurs; and a fatal error always follows a request |
| Resources.UnknownFormatStopsAtFirst | preview/applicationset.go:137-158 | with an unknown format nothing is printed, at most one request is sent, and the command fails exactly when some Application is selected |
| Resources.NothingSelectedNothingRendered | preview/applicationset.go:102-103 | when the filter selects nothing, no request is sent and nothing is printed |

## Left out

- Repository service set-up (applicationset.go:79-100): the size limits, the metrics server, the no-op cache, the temporary directory and the fatal `Init` failure. They are outside the preview logic. preview/cache.go is not part of this model.
- ApplicationSet loading (`cmdutil.ConstructApplicationSet`): it is the parameter `loaded`, because it reads and decodes a file.
- Template expansion and what the List, Matrix and Merge generators compute (`appsettemplate.GenerateApplications`): this is the parameter `expand`. The model keeps only the registry's shape.
- Manifest generation (`repoService.GenerateManifest`): this is the parameter `render`, a foreign call.
- JSON decoding of a manifest (`json.Unmarshal`): this is the parameter `parse`. A resource keeps only its kind and name.
- `argocmd.PrintResource` and `argocmd.PrintResourceList`: they are opaque events. Their JSON/YAML serialisation is not modelled.
- Reading the Helm repositories file (`repo.LoadFile`, `cli.New().RepositoryConfig`): its answer is the argument of `LoadLocalHelmFile`. The package `init` that calls the load is not modelled.
- Logging set-up (`initConfig`, the log levels, `ARGOCD_LOG_LEVEL`): warnings are recorded as events whatever the level.
- `os.Exit` and logrus' exit code: a fatal error is recorded as the run's last outcome, and nothing after it happens.
- cmd/commands/root.go: the flag parsing and the help exit are not part of this model. The `name` and `output` flags are plain parameters.
- Strings.ToLower: only ASCII letters are lowered. Kubernetes kinds are ASCII, and Go's full Unicode case mapping is not modelled.
- Strings.LexLe: it compares characters, while Go compares UTF-8 bytes. The two orders agree for valid strings, and invalid UTF-8 is not modelled.
- Preview.Application: it keeps the name, the destination namespace and the source (repository URL, path, target revision, chart, and the tool-specific build settings as one opaque value). The other Application fields are neither read nor set by the preview code, so they are not modelled; `PrintApplication` events therefore stand for prints of these fields only.
- Concurrency: none exists in the core.
