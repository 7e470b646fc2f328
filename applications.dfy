/**
 * Application generation and the `preview-apps` command (`generateApplications` and
 * `PreviewApplications` in preview/applicationset.go).
 */
module Applications {
  import opened Wrappers
  import opened Strings
  import opened Preview

  /** The warnings logged while generating, and the generated Applications or the fatal message. */
  datatype Generation = Generation(warnings: seq<Event>, apps: Result<seq<Application>>)

  /** What Go reports when indexing the first element of an empty slice. */
  const EmptyIndexPanic := "runtime error: index out of range [0] with length 0"

  function TooManyWarning(count: nat): string
  {
    "found " + DecimalString(count) + " ApplicationSets, only previewing the first entry"
  }

  /**
   * `generateApplications`: `loaded` is what the ApplicationSet loader returned for the file, and
   * `expand` stands for the template engine, run with the registry of `GetAppSetGenerators`.
   * Only the first ApplicationSet is expanded; more than one only adds a warning.
   */
  function GenerateApplications(loaded: Result<seq<ApplicationSet>>, expand: ApplicationSet -> Result<seq<Application>>): (g: Generation)
    ensures loaded.Failure? ==> g == Generation([], Failure("failed to construct ApplicationSet: " + loaded.error))
    ensures loaded.Success? && |loaded.value| > 1 ==> g.warnings == [Warning(TooManyWarning(|loaded.value|))]
    ensures loaded.Success? && |loaded.value| <= 1 ==> g.warnings == []
    ensures loaded.Success? && |loaded.value| == 0 ==> g.apps == Failure(EmptyIndexPanic)
    ensures loaded.Success? && |loaded.value| > 0 ==>
              (g.apps.Success? <==> expand(loaded.value[0]).Success?)
              && (g.apps.Success? ==> g.apps.value == expand(loaded.value[0]).value)
              && (g.apps.Failure? ==> g.apps.error == "failed to generate Application(s): " + expand(loaded.value[0]).error)
  {
    match loaded
    case Failure(e) => Generation([], Failure("failed to construct ApplicationSet: " + e))
    case Success(appSets) =>
      var warnings := if |appSets| > 1 then [Warning(TooManyWarning(|appSets|))] else [];
      if |appSets| == 0 then Generation(warnings, Failure(EmptyIndexPanic))
      else
        match expand(appSets[0])
        case Failure(e) => Generation(warnings, Failure("failed to generate Application(s): " + e))
        case Success(apps) => Generation(warnings, Success(apps))
  }

  /** The ApplicationSets after the first do not influence the generated Applications. */
  lemma OnlyFirstApplicationSet(first: ApplicationSet, rest: seq<ApplicationSet>, expand: ApplicationSet -> Result<seq<Application>>)
    ensures GenerateApplications(Success([first] + rest), expand).apps == GenerateApplications(Success([first]), expand).apps
  {
  }

  /** `application/<name>` for each Application, in order. */
  function ApplicationLines(apps: seq<Application>): (r: seq<Event>)
    ensures |r| == |apps|
    ensures forall i :: 0 <= i < |apps| ==> r[i] == Stdout("application/" + apps[i].name)
  {
    if |apps| == 0 then [] else [Stdout("application/" + apps[0].name)] + ApplicationLines(apps[1..])
  }

  lemma ApplicationLinesSnoc(apps: seq<Application>, app: Application)
    ensures ApplicationLines(apps + [app]) == ApplicationLines(apps) + [Stdout("application/" + app.name)]
  {
    var l, r := ApplicationLines(apps + [app]), ApplicationLines(apps) + [Stdout("application/" + app.name)];
    assert |l| == |r|;
    forall i | 0 <= i < |l| ensures l[i] == r[i] {
      if i < |apps| { assert (apps + [app])[i] == apps[i]; }
    }
  }

  /** The Application as printed on its own: stamped with the Application API version and kind. */
  function Stamped(app: Application): (r: Application)
    ensures r.typeMeta == TypeMeta(ApplicationApiVersion, ApplicationKind)
    ensures r.name == app.name && r.source == app.source && r.namespace == app.namespace
  {
    app.(typeMeta := TypeMeta(ApplicationApiVersion, ApplicationKind))
  }

  /** The single Application a filtered `json`/`yaml` listing prints, if any. */
  function FirstNamedOutput(apps: seq<Application>, appName: string, output: string): seq<Event>
  {
    match FirstNamed(apps, appName)
    case None => []
    case Some(i) => [PrintApplication(Stamped(apps[i]), output)]
  }

  /**
   * `preview-apps`. The `name` format prints a NAME header and one line per selected Application;
   * `json` and `yaml` print the first Application of the filtered name, or, without a filter, the
   * whole list; any other format is a fatal error.
   */
  method PreviewApplications(loaded: Result<seq<ApplicationSet>>, expand: ApplicationSet -> Result<seq<Application>>,
                             appName: string, output: string) returns (run: Run)
    ensures var g := GenerateApplications(loaded, expand);
      g.apps.Failure? ==> run == Run(g.warnings, Some(g.apps.error))
    ensures var g := GenerateApplications(loaded, expand);
      g.apps.Success? && output == "name" ==>
        run == Run(g.warnings + [Stdout("NAME")] + ApplicationLines(SelectApps(g.apps.value, appName)), None)
    ensures var g := GenerateApplications(loaded, expand);
      g.apps.Success? && IsStructuredFormat(output) && ShouldMatch(appName) ==>
        run == Run(g.warnings + FirstNamedOutput(g.apps.value, appName, output), None)
    ensures var g := GenerateApplications(loaded, expand);
      g.apps.Success? && IsStructuredFormat(output) && !ShouldMatch(appName) ==>
        run == Run(g.warnings + [PrintApplicationList(g.apps.value, output)], None)
    ensures var g := GenerateApplications(loaded, expand);
      g.apps.Success? && output != "name" && !IsStructuredFormat(output) ==>
        run == Run(g.warnings, Some(UnknownFormat(output)))
  {
    var g := GenerateApplications(loaded, expand);
    if g.apps.Failure? {
      return Run(g.warnings, Some(g.apps.error));
    }
    run := PrintApplications(g.warnings, g.apps.value, appName, output);
  }

  /** The output switch of `PreviewApplications`, after the warnings already logged. */
  method PrintApplications(warnings: seq<Event>, apps: seq<Application>, appName: string, output: string) returns (run: Run)
    ensures output == "name" ==> run == Run(warnings + [Stdout("NAME")] + ApplicationLines(SelectApps(apps, appName)), None)
    ensures IsStructuredFormat(output) && ShouldMatch(appName) ==> run == Run(warnings + FirstNamedOutput(apps, appName, output), None)
    ensures IsStructuredFormat(output) && !ShouldMatch(appName) ==> run == Run(warnings + [PrintApplicationList(apps, output)], None)
    ensures output != "name" && !IsStructuredFormat(output) ==> run == Run(warnings, Some(UnknownFormat(output)))
  {
    if output == "name" {
      var lines := NameListing(apps, appName);
      run := Run(warnings + lines, None);
    } else if output == "json" || output == "yaml" {
      if ShouldMatch(appName) {
        var printed := PrintFirstNamed(apps, appName, output);
        run := Run(warnings + printed, None);
      } else {
        run := Run(warnings + [PrintApplicationList(apps, output)], None);
      }
    } else {
      run := Run(warnings, Some(UnknownFormat(output)));
    }
  }

  /** The `name` branch of `PreviewApplications`: the header, then one line per selected Application. */
  method NameListing(apps: seq<Application>, appName: string) returns (lines: seq<Event>)
    ensures lines == [Stdout("NAME")] + ApplicationLines(SelectApps(apps, appName))
  {
    lines := [Stdout("NAME")];
    ghost var shown: seq<Application> := [];
    for i := 0 to |apps|
      invariant shown == SelectApps(apps[..i], appName)
      invariant lines == [Stdout("NAME")] + ApplicationLines(shown)
    {
      SelectAppsPrefix(apps, i, appName);
      if !ShouldMatch(appName) || appName == apps[i].name {
        ApplicationLinesSnoc(shown, apps[i]);
        lines := lines + [Stdout("application/" + apps[i].name)];
        shown := shown + [apps[i]];
      }
    }
    assert apps[..|apps|] == apps;
  }

  /** The filtered `json`/`yaml` branch: prints the first Application of that name and stops. */
  method PrintFirstNamed(apps: seq<Application>, appName: string, output: string) returns (printed: seq<Event>)
    ensures printed == FirstNamedOutput(apps, appName, output)
  {
    printed := [];
    var i := 0;
    while i < |apps|
      invariant 0 <= i <= |apps|
      invariant forall j :: 0 <= j < i ==> apps[j].name != appName
    {
      if appName == apps[i].name {
        assert IsFirstNamed(apps, appName, i);
        printed := [PrintApplication(Stamped(apps[i]), output)];
        break;
      }
      i := i + 1;
    }
  }

  /** The end-to-end example: a List generator emitting clusters "a" and "b" into `app-{{cluster}}`. */
  method ListOfTwoScenario()
  {
    var source := ApplicationSource("https://dummy", "", "", "", "");
    var a := Application(TypeMeta("", ""), "app-a", source, "a");
    var b := Application(TypeMeta("", ""), "app-b", source, "b");
    var expand := (s: ApplicationSet) => Success([a, b]);
    var run := PreviewApplications(Success([ApplicationSet("clusters")]), expand, "", "name");
    assert GenerateApplications(Success([ApplicationSet("clusters")]), expand) == Generation([], Success([a, b]));
    assert SelectApps([a, b], "") == [a, b];
    assert "application/" + a.name == "application/app-a" && "application/" + b.name == "application/app-b";
    assert run.events == [Stdout("NAME"), Stdout("application/app-a"), Stdout("application/app-b")];
  }

  /** The same ApplicationSet previewed with an unsupported output format. */
  method UnknownFormatScenario()
  {
    var source := ApplicationSource("https://dummy", "", "", "", "");
    var a := Application(TypeMeta("", ""), "app-a", source, "a");
    var expand := (s: ApplicationSet) => Success([a]);
    var run := PreviewApplications(Success([ApplicationSet("clusters")]), expand, "", "foo");
    assert "foo" != "name" && !IsStructuredFormat("foo");
    assert UnknownFormat("foo") == "unknown output format: foo";
    assert run == Run([], Some("unknown output format: foo"));
  }
}
