/**
 * The values the preview commands of preview/applicationset.go work on, the name filter they
 * share, and what a command run produces.
 */
module Preview {
  import opened Wrappers

  const ApplicationApiVersion := "argoproj.io/v1alpha1"
  const ApplicationKind := "Application"

  datatype TypeMeta = TypeMeta(apiVersion: string, kind: string)

  /**
   * `Spec.Source` of an Application: where its manifests come from and how they are built. Only
   * the repository URL is read by the preview code itself; the rest is handed to the manifest
   * generator untouched, with `buildOptions` standing for the Helm, Kustomize, Directory and
   * Plugin settings.
   */
  datatype ApplicationSource = ApplicationSource(
    repoUrl: string, path: string, targetRevision: string, chart: string, buildOptions: string)

  /** A generated Application, with the fields the preview code reads, sets or passes on. */
  datatype Application = Application(typeMeta: TypeMeta, name: string, source: ApplicationSource, namespace: string)

  /**
   * An ApplicationSet as the manifest loader returns it. Its generators and template are read
   * only by the template engine, which the model takes as a parameter.
   */
  datatype ApplicationSet = ApplicationSet(name: string)

  /** A rendered Kubernetes object: only its kind and name are read. */
  datatype Resource = Resource(kind: string, name: string)

  /** One observable effect of a command, in the order it happens. */
  datatype Event =
    | Stdout(line: string)                                      // a line printed with fmt
    | Warning(message: string)                                  // a warning logged
    | PrintApplication(app: Application, format: string)        // argocmd.PrintResource
    | PrintApplicationList(apps: seq<Application>, format: string) // argocmd.PrintResourceList
    | PrintResourceList(resources: seq<Resource>, format: string)  // argocmd.PrintResourceList

  /** Everything a command emitted, and the message of the fatal error it exited with, if any. */
  datatype Run = Run(events: seq<Event>, fatal: Option<string>)

  function UnknownFormat(output: string): string
  {
    "unknown output format: " + output
  }

  predicate IsStructuredFormat(output: string)
  {
    output == "json" || output == "yaml"
  }

  /** A name filter is in force exactly when it is not empty. */
  function ShouldMatch(appName: string): (r: bool)
    ensures r <==> appName != ""
  {
    |appName| > 0
  }

  /** The condition every preview loop applies to an Application. */
  predicate Selected(appName: string, app: Application)
  {
    !ShouldMatch(appName) || appName == app.name
  }

  /** The Applications that pass the filter, in their original order. */
  function SelectApps(apps: seq<Application>, appName: string): (r: seq<Application>)
    ensures |r| <= |apps|
    ensures forall a :: a in r <==> a in apps && Selected(appName, a)
    ensures !ShouldMatch(appName) ==> r == apps
    ensures ShouldMatch(appName) ==> forall a :: a in r ==> a.name == appName
  {
    if |apps| == 0 then []
    else if Selected(appName, apps[0]) then [apps[0]] + SelectApps(apps[1..], appName)
    else SelectApps(apps[1..], appName)
  }

  /** Filtering a longer prefix adds the next Application exactly when it is selected. */
  lemma {:induction false} SelectAppsSnoc(apps: seq<Application>, app: Application, appName: string)
    ensures SelectApps(apps + [app], appName)
         == SelectApps(apps, appName) + if Selected(appName, app) then [app] else []
  {
    if |apps| > 0 {
      assert (apps + [app])[1..] == apps[1..] + [app];
      SelectAppsSnoc(apps[1..], app, appName);
    } else {
      assert (apps + [app])[1..] == [];
    }
  }

  /** The step of a loop over `apps` that filters as it goes. */
  lemma SelectAppsPrefix(apps: seq<Application>, i: nat, appName: string)
    requires i < |apps|
    ensures SelectApps(apps[..i + 1], appName)
         == SelectApps(apps[..i], appName) + if Selected(appName, apps[i]) then [apps[i]] else []
  {
    assert apps[..i + 1] == apps[..i] + [apps[i]];
    SelectAppsSnoc(apps[..i], apps[i], appName);
  }

  predicate IsFirstNamed(apps: seq<Application>, appName: string, i: int)
  {
    0 <= i < |apps| && apps[i].name == appName && forall j :: 0 <= j < i ==> apps[j].name != appName
  }

  /** Position of the first Application called `appName`, if any. */
  function FirstNamed(apps: seq<Application>, appName: string): (r: Option<nat>)
    ensures r.Some? ==> IsFirstNamed(apps, appName, r.value)
    ensures r.None? ==> forall j :: 0 <= j < |apps| ==> apps[j].name != appName
  {
    if |apps| == 0 then None
    else if apps[0].name == appName then Some(0)
    else
      match FirstNamed(apps[1..], appName)
      case None => None
      case Some(i) => Some(i + 1)
  }

  /** Under a filter, the first Application of that name is the first one the filter selects. */
  lemma {:induction false} FirstNamedHeadsSelection(apps: seq<Application>, appName: string)
    requires ShouldMatch(appName)
    ensures FirstNamed(apps, appName).None? <==> SelectApps(apps, appName) == []
    ensures FirstNamed(apps, appName).Some? ==> SelectApps(apps, appName)[0] == apps[FirstNamed(apps, appName).value]
  {
    if |apps| > 0 && apps[0].name != appName {
      FirstNamedHeadsSelection(apps[1..], appName);
    }
  }
}
