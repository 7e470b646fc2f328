/**
 * The `preview-resources` command (`PreviewResources` in preview/applicationset.go): every
 * selected Application is rendered with the resolved repository credentials, its resources are
 * grouped by lower-cased kind, and the groups are printed in ascending kind order.
 */
module Resources {
  import opened Wrappers
  import opened Sorting
  import opened Preview
  import opened Applications
  import opened Grouping
  import Helm

  /** `<kind>/<name>` for each resource of a bucket. */
  function ResourceNames(kind: string, bucket: seq<Resource>): (r: seq<string>)
    ensures |r| == |bucket|
    ensures forall i :: 0 <= i < |bucket| ==> r[i] == kind + "/" + bucket[i].name
  {
    if |bucket| == 0 then [] else [kind + "/" + bucket[0].name] + ResourceNames(kind, bucket[1..])
  }

  /** One group of the `name` output: a NAME header, then a line per resource of the bucket. */
  function GroupLines(kind: string, bucket: seq<Resource>): seq<string>
  {
    ["NAME"] + ResourceNames(kind, bucket)
  }

  /** The `name` output for a kind list: its groups in order, with one blank line between two groups. */
  function NameReport(kinds: seq<string>, resources: map<string, seq<Resource>>): seq<string>
  {
    if |kinds| == 0 then []
    else if |kinds| == 1 then GroupLines(kinds[0], BucketOf(resources, kinds[0]))
    else GroupLines(kinds[0], BucketOf(resources, kinds[0])) + [""] + NameReport(kinds[1..], resources)
  }

  /** One more kind adds a blank line, unless it is the first, and then its group. */
  lemma {:induction false} NameReportSnoc(kinds: seq<string>, kind: string, resources: map<string, seq<Resource>>)
    ensures NameReport(kinds + [kind], resources)
         == NameReport(kinds, resources) + (if |kinds| > 0 then [""] else []) + GroupLines(kind, BucketOf(resources, kind))
  {
    if |kinds| > 0 {
      assert (kinds + [kind])[1..] == kinds[1..] + [kind];
      NameReportSnoc(kinds[1..], kind, resources);
    }
  }

  lemma ResourceNamesSnoc(kind: string, bucket: seq<Resource>, j: nat)
    requires j < |bucket|
    ensures ResourceNames(kind, bucket[..j + 1]) == ResourceNames(kind, bucket[..j]) + [kind + "/" + bucket[j].name]
  {
    var l, r := ResourceNames(kind, bucket[..j + 1]), ResourceNames(kind, bucket[..j]) + [kind + "/" + bucket[j].name];
    assert |l| == |r|;
    forall i | 0 <= i < |l| ensures l[i] == r[i] {
      if i < j { assert bucket[..j + 1][i] == bucket[..j][i]; }
    }
  }

  /** The group-printing loop: a flag suppresses the blank line before the first group. */
  method PrintNames(kinds: seq<string>, resources: map<string, seq<Resource>>) returns (lines: seq<string>)
    ensures lines == NameReport(kinds, resources)
  {
    lines := [];
    var printNewline := true;
    for i := 0 to |kinds|
      invariant printNewline <==> i == 0
      invariant lines == NameReport(kinds[..i], resources)
    {
      if printNewline {
        printNewline := false;
      } else {
        lines := lines + [""];
      }
      var group := PrintGroup(kinds[i], BucketOf(resources, kinds[i]));
      lines := lines + group;
      assert kinds[..i + 1] == kinds[..i] + [kinds[i]];
      NameReportSnoc(kinds[..i], kinds[i], resources);
    }
    assert kinds[..|kinds|] == kinds;
  }

  /** The body of the group-printing loop: the header, then a line per resource of the bucket. */
  method PrintGroup(kind: string, bucket: seq<Resource>) returns (lines: seq<string>)
    ensures lines == GroupLines(kind, bucket)
  {
    lines := ["NAME"];
    for j := 0 to |bucket|
      invariant lines == ["NAME"] + ResourceNames(kind, bucket[..j])
    {
      ResourceNamesSnoc(kind, bucket, j);
      lines := lines + [kind + "/" + bucket[j].name];
    }
    assert bucket[..|bucket|] == bucket;
  }

  /** A group starts with its header and holds no blank line. */
  lemma GroupLinesShape(kind: string, bucket: seq<Resource>)
    ensures GroupLines(kind, bucket)[0] == "NAME"
    ensures multiset(GroupLines(kind, bucket))[""] == 0
  {
    var g := GroupLines(kind, bucket);
    forall i | 0 <= i < |g| ensures g[i] != "" {
      if i > 0 { assert |g[i]| > 0; }
    }
    assert "" !in g;
  }

  /** The `name` output starts with a header and has exactly one blank line between consecutive groups. */
  lemma {:induction false} NameReportBlankLines(kinds: seq<string>, resources: map<string, seq<Resource>>)
    requires |kinds| > 0
    ensures NameReport(kinds, resources)[0] == "NAME"
    ensures multiset(NameReport(kinds, resources))[""] == |kinds| - 1
  {
    var g := GroupLines(kinds[0], BucketOf(resources, kinds[0]));
    GroupLinesShape(kinds[0], BucketOf(resources, kinds[0]));
    if |kinds| > 1 {
      var rest := NameReport(kinds[1..], resources);
      NameReportBlankLines(kinds[1..], resources);
      assert NameReport(kinds, resources) == g + [""] + rest;
      assert multiset(g + [""] + rest) == multiset(g) + multiset{""} + multiset(rest);
    }
  }

  /** The `name` output has a header and a line per listed resource for each group, plus the separators. */
  lemma {:induction false} NameReportLength(kinds: seq<string>, resources: map<string, seq<Resource>>)
    requires |kinds| > 0
    ensures |NameReport(kinds, resources)| == |Flatten(kinds, resources)| + 2 * |kinds| - 1
  {
    if |kinds| > 1 {
      NameReportLength(kinds[1..], resources);
    }
  }

  /** The lines printed to standard output, in order. */
  function StdoutLines(lines: seq<string>): (r: seq<Event>)
    ensures |r| == |lines|
    ensures forall i :: 0 <= i < |lines| ==> r[i] == Stdout(lines[i])
  {
    if |lines| == 0 then [] else [Stdout(lines[0])] + StdoutLines(lines[1..])
  }

  /** The `json`/`yaml` output: one list print per kind, in order. */
  function ListReport(kinds: seq<string>, resources: map<string, seq<Resource>>, output: string): (r: seq<Event>)
    ensures |r| == |kinds|
    ensures forall i :: 0 <= i < |kinds| ==> r[i] == PrintResourceList(BucketOf(resources, kinds[i]), output)
  {
    if |kinds| == 0 then [] else [PrintResourceList(BucketOf(resources, kinds[0]), output)] + ListReport(kinds[1..], resources, output)
  }

  /** What is printed for one Application's grouped resources, listed in the given kind order. */
  function FormatReport(kinds: seq<string>, resources: map<string, seq<Resource>>, output: string): Result<seq<Event>>
  {
    if output == "name" then Success(StdoutLines(NameReport(kinds, resources)))
    else if IsStructuredFormat(output) then Success(ListReport(kinds, resources, output))
    else Failure(UnknownFormat(output))
  }

  /** What is printed for one Application's rendered resources. */
  ghost function ResourceReport(rs: seq<Resource>, output: string): Result<seq<Event>>
  {
    FormatReport(SortedSet(KindSet(rs)), Buckets(rs), output)
  }

  /** The kind list, then the output switch of one Application. */
  method ReportResources(resources: map<string, seq<Resource>>, output: string) returns (r: Result<seq<Event>>)
    ensures r == FormatReport(SortedSet(resources.Keys), resources, output)
  {
    var kinds := SortedKinds(resources);
    if output == "name" {
      var lines := PrintNames(kinds, resources);
      r := Success(StdoutLines(lines));
    } else if output == "json" || output == "yaml" {
      var events := PrintLists(kinds, resources, output);
      r := Success(events);
    } else {
      r := Failure(UnknownFormat(output));
    }
  }

  /** The `json`/`yaml` branch: one list print per kind, in order. */
  method PrintLists(kinds: seq<string>, resources: map<string, seq<Resource>>, output: string) returns (events: seq<Event>)
    ensures events == ListReport(kinds, resources, output)
  {
    events := [];
    for i := 0 to |kinds|
      invariant |events| == i
      invariant forall j :: 0 <= j < i ==> events[j] == PrintResourceList(BucketOf(resources, kinds[j]), output)
    {
      events := events + [PrintResourceList(BucketOf(resources, kinds[i]), output)];
    }
  }

  /** Every rendered Application is sent under this project name. */
  const ProjectName := "applications"

  /** The manifest request sent to the repository service for one Application. */
  datatype ManifestRequest = ManifestRequest(
    source: ApplicationSource, appName: string, namespace: string, repoUrl: string,
    username: string, password: string, projectName: string, noCache: bool)

  /** The request for `app`, with the credentials resolved for its repository URL. */
  function Request(app: Application, env: Helm.Environment, file: Option<seq<Helm.Entry>>): (req: ManifestRequest)
    ensures req.source == app.source && req.repoUrl == app.source.repoUrl
    ensures req.appName == app.name && req.namespace == app.namespace
    ensures req.username == Helm.ResolveUsername(env, file, app.source.repoUrl)
    ensures req.password == Helm.ResolvePassword(env, file, app.source.repoUrl)
    ensures req.projectName == ProjectName && req.noCache
  {
    var url := app.source.repoUrl;
    ManifestRequest(app.source, app.name, app.namespace, url,
                    Helm.ResolveUsername(env, file, url), Helm.ResolvePassword(env, file, url),
                    ProjectName, true)
  }

  /**
   * The stand-ins for the foreign code `PreviewResources` calls: `render` for the repository
   * service's manifest generation, `parse` for decoding one manifest.
   */
  type Renderer = ManifestRequest -> Result<seq<string>>
  type Decoder = string -> Result<Resource>

  /** What one selected Application prints, or the fatal message it stops the command with. */
  ghost function AppReport(req: ManifestRequest, render: Renderer, parse: Decoder, output: string): Result<seq<Event>>
  {
    match render(req)
    case Failure(e) => Failure("failed to generate manifest: " + e)
    case Success(manifests) =>
      match ParseAll(manifests, parse)
      case Failure(e) => Failure(e)
      case Success(rs) => ResourceReport(rs, output)
  }

  /** The body of the Application loop for one selected Application. */
  method RenderApplication(helm: Helm.HelmRepositories, env: Helm.Environment, app: Application,
                           render: Renderer, parse: Decoder, output: string)
    returns (req: ManifestRequest, r: Result<seq<Event>>)
    ensures req == Request(app, env, helm.localHelmFile)
    ensures r == AppReport(req, render, parse, output)
  {
    var username := helm.FindRepoUsername(env, app.source.repoUrl);
    var password := helm.FindRepoPassword(env, app.source.repoUrl);
    req := ManifestRequest(app.source, app.name, app.namespace, app.source.repoUrl, username, password, ProjectName, true);
    var response := render(req);
    if response.Failure? {
      return req, Failure("failed to generate manifest: " + response.error);
    }
    var grouped := GroupByKind(response.value, parse);
    if grouped.Failure? {
      return req, Failure(grouped.error);
    }
    r := ReportResources(grouped.value, output);
  }

  /** The requests sent, and what the command printed and exited with. */
  datatype RenderRun = RenderRun(requests: seq<ManifestRequest>, run: Run)

  function Prepend(requests: seq<ManifestRequest>, events: seq<Event>, rest: RenderRun): RenderRun
  {
    RenderRun(requests + rest.requests, Run(events + rest.run.events, rest.run.fatal))
  }

  lemma PrependTwice(r1: seq<ManifestRequest>, e1: seq<Event>, r2: seq<ManifestRequest>, e2: seq<Event>, rest: RenderRun)
    ensures Prepend(r1, e1, Prepend(r2, e2, rest)) == Prepend(r1 + r2, e1 + e2, rest)
  {
    assert r1 + (r2 + rest.requests) == (r1 + r2) + rest.requests;
    assert e1 + (e2 + rest.run.events) == (e1 + e2) + rest.run.events;
  }

  /** What one selected Application prints, or the fatal message it stops with. */
  type Reporter = ManifestRequest -> Result<seq<Event>>

  /** `AppReport` for fixed stand-ins, as a function of the request. */
  ghost function Reports(render: Renderer, parse: Decoder, output: string): Reporter
  {
    req => AppReport(req, render, parse, output)
  }

  /** The Application loop: selected Applications in order, stopping at the first fatal error. */
  ghost function PreviewedApps(apps: seq<Application>, appName: string, env: Helm.Environment, file: Option<seq<Helm.Entry>>,
                               report: Reporter): RenderRun
  {
    if |apps| == 0 then RenderRun([], Run([], None))
    else if !Selected(appName, apps[0]) then PreviewedApps(apps[1..], appName, env, file, report)
    else
      var req := Request(apps[0], env, file);
      match report(req)
      case Failure(e) => RenderRun([req], Run([], Some(e)))
      case Success(events) => Prepend([req], events, PreviewedApps(apps[1..], appName, env, file, report))
  }

  /** One step of the Application loop, as `PreviewedApps` takes it. */
  lemma PreviewedAppsStep(apps: seq<Application>, i: nat, appName: string, env: Helm.Environment, file: Option<seq<Helm.Entry>>,
                          report: Reporter)
    requires i < |apps|
    ensures var here, rest := PreviewedApps(apps[i..], appName, env, file, report),
                              PreviewedApps(apps[i + 1..], appName, env, file, report);
            var req := Request(apps[i], env, file);
            && (!Selected(appName, apps[i]) ==> here == rest)
            && (Selected(appName, apps[i]) && report(req).Failure? ==>
                  here == RenderRun([req], Run([], Some(report(req).error))))
            && (Selected(appName, apps[i]) && report(req).Success? ==>
                  here == Prepend([req], report(req).value, rest))
  {
    assert apps[i..][0] == apps[i] && apps[i..][1..] == apps[i + 1..];
  }

  /** The requests for `apps`, one per Application, in order. */
  function Requests(apps: seq<Application>, env: Helm.Environment, file: Option<seq<Helm.Entry>>): (r: seq<ManifestRequest>)
    ensures |r| == |apps|
    ensures forall i :: 0 <= i < |apps| ==> r[i] == Request(apps[i], env, file)
  {
    if |apps| == 0 then [] else [Request(apps[0], env, file)] + Requests(apps[1..], env, file)
  }

  /**
   * Only selected Applications are rendered, in order: the requests sent are a prefix of those for
   * the selection, all of them when the loop ran to completion, and a fatal stop follows a request.
   */
  lemma {:induction false} PreviewedRequests(apps: seq<Application>, appName: string, env: Helm.Environment,
                                             file: Option<seq<Helm.Entry>>, report: Reporter)
    ensures var r, sent := PreviewedApps(apps, appName, env, file, report),
                           Requests(SelectApps(apps, appName), env, file);
            && r.requests <= sent
            && (r.run.fatal.None? ==> r.requests == sent)
            && (r.run.fatal.Some? ==> r.requests != [])
  {
    if |apps| > 0 {
      var r, r1 := PreviewedApps(apps, appName, env, file, report), PreviewedApps(apps[1..], appName, env, file, report);
      PreviewedRequests(apps[1..], appName, env, file, report);
      if !Selected(appName, apps[0]) {
        assert r == r1 && SelectApps(apps, appName) == SelectApps(apps[1..], appName);
      } else {
        var req, rest := Request(apps[0], env, file), SelectApps(apps[1..], appName);
        assert SelectApps(apps, appName) == [apps[0]] + rest;
        RequestsCons(apps[0], rest, env, file);
        if report(req).Failure? {
          assert r == RenderRun([req], Run([], Some(report(req).error)));
        } else {
          assert r == Prepend([req], report(req).value, r1);
        }
      }
    }
  }

  lemma RequestsCons(app: Application, apps: seq<Application>, env: Helm.Environment, file: Option<seq<Helm.Entry>>)
    ensures Requests([app] + apps, env, file) == [Request(app, env, file)] + Requests(apps, env, file)
  {
    assert ([app] + apps)[1..] == apps;
  }

  /**
   * With an unknown output format the first selected Application is rendered and the command
   * stops; when no Application is selected it prints nothing and succeeds.
   */
  lemma {:induction false} UnknownFormatStopsAtFirst(apps: seq<Application>, appName: string, env: Helm.Environment,
                                                     file: Option<seq<Helm.Entry>>, render: Renderer, parse: Decoder, output: string)
    requires output != "name" && !IsStructuredFormat(output)
    ensures var r := PreviewedApps(apps, appName, env, file, Reports(render, parse, output));
            && r.run.events == []
            && |r.requests| <= 1
            && (r.run.fatal.Some? <==> SelectApps(apps, appName) != [])
  {
    if |apps| > 0 {
      if Selected(appName, apps[0]) {
        var req := Request(apps[0], env, file);
        assert AppReport(req, render, parse, output).Failure?;
      } else {
        UnknownFormatStopsAtFirst(apps[1..], appName, env, file, render, parse, output);
      }
    }
  }

  /** When the filter selects nothing, nothing is rendered and nothing is printed. */
  lemma {:induction false} NothingSelectedNothingRendered(apps: seq<Application>, appName: string, env: Helm.Environment,
                                                          file: Option<seq<Helm.Entry>>, report: Reporter)
    requires SelectApps(apps, appName) == []
    ensures PreviewedApps(apps, appName, env, file, report) == RenderRun([], Run([], None))
  {
    if |apps| > 0 {
      assert !Selected(appName, apps[0]);
      NothingSelectedNothingRendered(apps[1..], appName, env, file, report);
    }
  }

  /**
   * `preview-resources`. `loaded` and `expand` are as for `GenerateApplications`; the credentials
   * come from `env` and the file loaded into `helm`.
   */
  method PreviewResources(helm: Helm.HelmRepositories, env: Helm.Environment,
                          loaded: Result<seq<ApplicationSet>>, expand: ApplicationSet -> Result<seq<Application>>,
                          render: Renderer, parse: Decoder, appName: string, output: string)
    returns (result: RenderRun)
    ensures var g := GenerateApplications(loaded, expand);
      g.apps.Failure? ==> result == RenderRun([], Run(g.warnings, Some(g.apps.error)))
    ensures var g := GenerateApplications(loaded, expand);
      g.apps.Success? ==>
        result == Prepend([], g.warnings, PreviewedApps(g.apps.value, appName, env, helm.localHelmFile, Reports(render, parse, output)))
  {
    var g := GenerateApplications(loaded, expand);
    if g.apps.Failure? {
      return RenderRun([], Run(g.warnings, Some(g.apps.error)));
    }
    var rendered := RenderApplications(helm, env, g.apps.value, render, parse, appName, output);
    result := Prepend([], g.warnings, rendered);
  }

  /** The Application loop of `PreviewResources`. */
  method RenderApplications(helm: Helm.HelmRepositories, env: Helm.Environment, apps: seq<Application>,
                            render: Renderer, parse: Decoder, appName: string, output: string)
    returns (result: RenderRun)
    ensures result == PreviewedApps(apps, appName, env, helm.localHelmFile, Reports(render, parse, output))
  {
    var requests: seq<ManifestRequest> := [];
    var events: seq<Event> := [];
    for i := 0 to |apps|
      invariant PreviewedApps(apps, appName, env, helm.localHelmFile, Reports(render, parse, output))
             == Prepend(requests, events, PreviewedApps(apps[i..], appName, env, helm.localHelmFile, Reports(render, parse, output)))
    {
      var fatal;
      requests, events, fatal := RenderStep(helm, env, apps, i, render, parse, appName, output, requests, events);
      if fatal.Some? {
        return RenderRun(requests, Run(events, fatal));
      }
    }
    assert apps[|apps|..] == [];
    return RenderRun(requests, Run(events, None));
  }

  /** One iteration of the Application loop: render `apps[i]` if selected, or stop on a fatal error. */
  method RenderStep(helm: Helm.HelmRepositories, env: Helm.Environment, apps: seq<Application>, i: nat,
                    render: Renderer, parse: Decoder, appName: string, output: string,
                    requests: seq<ManifestRequest>, events: seq<Event>)
    returns (requests': seq<ManifestRequest>, events': seq<Event>, fatal: Option<string>)
    requires i < |apps|
    ensures var file := helm.localHelmFile;
      fatal.None? ==>
        Prepend(requests, events, PreviewedApps(apps[i..], appName, env, file, Reports(render, parse, output)))
        == Prepend(requests', events', PreviewedApps(apps[i + 1..], appName, env, file, Reports(render, parse, output)))
    ensures var file := helm.localHelmFile;
      fatal.Some? ==>
        Prepend(requests, events, PreviewedApps(apps[i..], appName, env, file, Reports(render, parse, output)))
        == RenderRun(requests', Run(events', fatal))
  {
    ghost var file := helm.localHelmFile;
    PreviewedAppsStep(apps, i, appName, env, file, Reports(render, parse, output));
    requests', events', fatal := requests, events, None;
    if !ShouldMatch(appName) || appName == apps[i].name {
      var req, report := RenderApplication(helm, env, apps[i], render, parse, output);
      requests' := requests + [req];
      if report.Failure? {
        fatal := Some(report.error);
      } else {
        PrependTwice(requests, events, [req], report.value, PreviewedApps(apps[i + 1..], appName, env, file, Reports(render, parse, output)));
        events' := events + report.value;
      }
    }
  }
}
