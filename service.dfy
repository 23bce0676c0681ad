/** `NatalchartrulerService`: the three reports and the artifact extractor,
    over a model of the shared output directory. Geocoding, timezone lookup,
    the random suffix, the engine's planet placements and the renderer are
    parameters of the report methods. */
module Service {
  import opened Wrappers
  import opened Schema
  import opened Naming
  import opened Planets
  import opened Artifacts
  import opened Charts

  /** `info` of a natal report. */
  datatype Info = Info(lat: real, lng: real, tz: Option<string>)

  /** The natal response: `{"svg", "data": {"name", "planets", "info"}}`. */
  datatype NatalReport = NatalReport(svg: Option<string>, name: string, planets: map<string, Placement>, info: Info)

  /** The transit response, or the soft error body `{"error": ...}`. */
  datatype TransitReport =
    | TransitError(error: string)
    | TransitReport(svg: Option<string>, status: string, transitDate: Moment, themeUsed: string)

  /** The synastry response: `{"svg", "data": {"status", "p1", "p2"}}`. */
  datatype SynastryReport = SynastryReport(svg: Option<string>, status: string, p1: string, p2: string)

  /** The assumption made of the renderer: `makeSVG` writes into the output
      directory only SVG files whose name, before the extension, contains
      one of the chart's subject names. They may be hidden, and `os.remove`
      may fail on them. */
  ghost predicate RendersUnderSubjectNames(render: Chart -> Directory)
  {
    forall c :: WrittenFor(SubjectNames(c), render(c))
  }

  /** An engine that names its one file after the first subject. */
  function SubjectNamedEngine(c: Chart): Directory
  {
    map[c.first.name + " - Chart.svg" := FileEntry(0, Some("<svg/>"), true)]
  }

  /** The file "{name} - Chart.svg" is an SVG whose stem contains `name`. */
  lemma ChartFileNamesSubject(name: string)
    ensures var f := name + " - Chart.svg";
      |f| >= 4 && f[|f| - 4..] == ".svg" && Contains(f[..|f| - 4], name)
  {
    var f := name + " - Chart.svg";
    assert f[..|f| - 4] == name + " - Chart";
    assert (name + " - Chart")[0..|name|] == name;
    assert OccursAt(f[..|f| - 4], name, 0);
  }

  /** The assumption admits an engine that names its file after the first
      subject, as in "{name} - Chart.svg". */
  lemma SubjectNamedEngineMeetsAssumption()
    ensures RendersUnderSubjectNames(SubjectNamedEngine)
  {
    forall c: Chart
      ensures WrittenFor(SubjectNames(c), SubjectNamedEngine(c))
    {
      ChartFileNamesSubject(c.first.name);
    }
  }

  /** The directory a subject-named engine leaves for the natal internal
      name ".x_abc123". */
  const HiddenNatalOutput: Directory := map[".x_abc123 - Natal Chart.svg" := FileEntry(0, Some("<svg/>"), true)]

  /** That file meets the renderer assumption for ".x_abc123", the natal
      internal name of a person named ".x" under suffix "abc123". */
  lemma HiddenNatalOutputIsAdmitted()
    ensures InternalName(Natal, ".x", "abc123") == ".x_abc123"
    ensures WrittenFor({".x_abc123"}, HiddenNatalOutput)
  {
    var f := ".x_abc123 - Natal Chart.svg";
    assert f[..|f| - 4] == ".x_abc123 - Natal Chart";
    assert f[|f| - 4..] == ".svg";
    assert OccursAt(".x_abc123 - Natal Chart", ".x_abc123", 0);
  }

  /** That file is hidden, so the glob does not see it. */
  lemma HiddenArtifactEscapesGlob()
    ensures MatchSet(HiddenNatalOutput, ".x_abc123") == {}
    ensures Extracted(HiddenNatalOutput, ".x_abc123", None) && !Extracted(HiddenNatalOutput, ".x_abc123", Some("<svg/>"))
    ensures Cleaned(HiddenNatalOutput, ".x_abc123") == HiddenNatalOutput
  {
    var f := ".x_abc123 - Natal Chart.svg";
    assert !Matches(".x_abc123", f);
  }

  /** The glob skips hidden names. A natal request for a person named ".x"
      gets the internal name ".x_abc123"; a file the engine names after it
      is hidden, so the extractor finds nothing, returns `None` although
      the chart was drawn, and leaves the file in the directory. */
  lemma HiddenNatalArtifactLeaks()
    ensures var internal := InternalName(Natal, ".x", "abc123");
      && WrittenFor({internal}, HiddenNatalOutput)
      && Extracted(HiddenNatalOutput, internal, None) && !Extracted(HiddenNatalOutput, internal, Some("<svg/>"))
      && Cleaned(HiddenNatalOutput, internal) == HiddenNatalOutput
  {
    HiddenNatalOutputIsAdmitted();
    HiddenArtifactEscapesGlob();
  }

  /** With hidden names included, the same request gets its chart back
      and leaves no file. */
  lemma HiddenAwareExtractionFindsArtifact()
    ensures ExtractedIncludingHidden(HiddenNatalOutput, ".x_abc123", Some("<svg/>"))
    ensures !ExtractedIncludingHidden(HiddenNatalOutput, ".x_abc123", None)
    ensures CleanedIncludingHidden(HiddenNatalOutput, ".x_abc123") == map[]
  {
    var f := ".x_abc123 - Natal Chart.svg";
    assert f[..|f| - 4] == ".x_abc123 - Natal Chart";
    assert OccursAt(".x_abc123 - Natal Chart", ".x_abc123", 0);
    assert MatchesIncludingHidden(".x_abc123", f);
    assert MatchSetIncludingHidden(HiddenNatalOutput, ".x_abc123") == {f};
  }

  class NatalchartrulerService {
    /** The shared output directory. */
    var files: Directory

    constructor (dir: Directory)
      ensures files == dir
    {
      files := dir;
    }

    /** `_extract_svg_and_cleanup`: find the files matching
        `*{internalName}*.svg`; none, `None`. Otherwise read the newest
        match and, whether or not reading succeeded, try to delete every
        match (a failed deletion is ignored). */
    method ExtractSvgAndCleanup(internalName: string) returns (content: Option<string>)
      modifies this
      ensures Extracted(old(files), internalName, content)
      ensures files == Cleaned(old(files), internalName)
    {
      var found := MatchSet(files, internalName);
      if found == {} {
        return None;
      }
      var target := Newest(files, found);
      content := files[target].content;
      var rest := found;
      while rest != {}
        invariant rest <= found
        invariant files == RemoveFound(old(files), found - rest)
        decreases rest
      {
        var path :| path in rest;
        if path in files && files[path].removable {
          files := files - {path};
        }
        rest := rest - {path};
      }
    }

    /** `chart.makeSVG()`: the renderer adds its files to the directory. */
    method MakeSvg(chart: Chart, render: Chart -> Directory)
      modifies this
      ensures files == old(files) + render(chart)
    {
      files := files + render(chart);
    }

    /** `get_full_report`: an unresolved city raises; otherwise render a
        natal chart under `{name}_{suffix}`, list the seven bodies and
        extract the artifact. */
    method GetFullReport(req: AstroRequest, location: Option<Location>, tz: Option<string>, sfx: Suffix,
                         placement: Body -> Placement, render: Chart -> Directory)
      returns (out: Outcome<NatalReport>)
      requires RendersUnderSubjectNames(render)
      modifies this
      ensures location.None? ==> out == Raised("City '" + req.city + "' not found") && files == old(files)
      ensures location.Some? ==>
        var internal := InternalName(Natal, req.name, sfx);
        var chart := SingleChart(PersonSubject(internal, req, location.value, tz), SelectedTheme(req.theme.Value()));
        var dir := old(files) + render(chart);
        && out.Returned?
        && out.value.name == req.name
        && out.value.planets == PlanetsData(placement)
        && out.value.planets.Keys == BodyKeys
        && out.value.info == Info(location.value.latitude, location.value.longitude, tz)
        && Extracted(dir, internal, out.value.svg)
        && files == Cleaned(dir, internal)
        && (forall f :: f in render(chart) ==> (f in files <==> f[0] == '.' || !render(chart)[f].removable))
        && forall f :: f in files && Matches(internal, f) ==> f in dir && !dir[f].removable
    {
      if location.None? {
        return Raised("City '" + req.city + "' not found");
      }
      var loc := location.value;
      var internal := InternalName(Natal, req.name, sfx);
      var subject := PersonSubject(internal, req, loc, tz);
      var selectedTheme := SelectedTheme(req.theme.Value());
      var chart := SingleChart(subject, selectedTheme);
      MakeSvg(chart, render);
      var planets := PlanetsData(placement);
      var svg := ExtractSvgAndCleanup(internal);
      ContainsSelf(internal);
      NoArtifactOutlivesReport(old(files), render(chart), SubjectNames(chart), internal);
      out := Returned(NatalReport(svg, req.name, planets, Info(loc.latitude, loc.longitude, tz)));
    }

    /** `get_transit_report`: an unresolved city gives the soft error body
        without raising; otherwise build the two-subject chart (primary,
        then fallback), render it under `Transit_{name}_{suffix}` and
        extract the artifact. */
    method GetTransitReport(req: TransitRequest, location: Option<Location>, tz: Option<string>, sfx: Suffix,
                            primary: Construction, fallback: Construction, render: Chart -> Directory)
      returns (out: Outcome<TransitReport>)
      requires RendersUnderSubjectNames(render)
      modifies this
      ensures location.None? ==> out == Returned(TransitError("City not found")) && files == old(files)
      ensures location.Some? && primary.Throws? && fallback.Throws? ==>
        out == Raised(fallback.error) && files == old(files)
      ensures location.Some? && (primary.Constructs? || fallback.Constructs?) ==>
        var internal := InternalName(Transit, req.person.name, sfx);
        var subject := PersonSubject(internal, req.person, location.value, tz);
        var moment := MomentSubject(PartnerName(Transit, internal), req.transitDate, req.person.city, location.value, tz);
        var chart := PrimaryChart(subject, Transit, moment, SelectedTheme(req.person.theme.Value()));
        var dir := old(files) + render(chart);
        && out.Returned? && out.value.TransitReport?
        && out.value.status == "success"
        && out.value.transitDate == req.transitDate
        && out.value.themeUsed == req.person.theme.Value()
        && Extracted(dir, internal, out.value.svg)
        && files == Cleaned(dir, internal)
        && (forall f :: f in render(chart) ==> (f in files <==> f[0] == '.' || !render(chart)[f].removable))
        && forall f :: f in files && Matches(internal, f) ==> f in dir && !dir[f].removable
    {
      if location.None? {
        return Returned(TransitError("City not found"));
      }
      var loc := location.value;
      var internal := InternalName(Transit, req.person.name, sfx);
      var subject := PersonSubject(internal, req.person, loc, tz);
      var transitSubject := MomentSubject(PartnerName(Transit, internal), req.transitDate, req.person.city, loc, tz);
      var userTheme := req.person.theme.Value();
      var selectedTheme := SelectedTheme(userTheme);
      var built := TwoSubjectChart(subject, Transit, transitSubject, selectedTheme, primary, fallback);
      if built.Raised? {
        return Raised(built.message);
      }
      var chart := built.value;
      MakeSvg(chart, render);
      var svg := ExtractSvgAndCleanup(internal);
      ContainsSelf(internal);
      NoArtifactOutlivesReport(old(files), render(chart), SubjectNames(chart), internal);
      out := Returned(TransitReport(svg, "success", req.transitDate, userTheme));
    }

    /** `get_synastry_report`: either unresolved city raises; otherwise
        build the two-subject chart (primary, then fallback), render it
        under `Syn_{name}_{suffix}` and extract the artifact. */
    method GetSynastryReport(req: SynastryRequest, location1: Option<Location>, tz1: Option<string>,
                             location2: Option<Location>, tz2: Option<string>, sfx: Suffix,
                             primary: Construction, fallback: Construction, render: Chart -> Directory)
      returns (out: Outcome<SynastryReport>)
      requires RendersUnderSubjectNames(render)
      modifies this
      ensures location1.None? ==> out == Raised("City 1 not found") && files == old(files)
      ensures location1.Some? && location2.None? ==> out == Raised("City 2 not found") && files == old(files)
      ensures location1.Some? && location2.Some? && primary.Throws? && fallback.Throws? ==>
        out == Raised(fallback.error) && files == old(files)
      ensures location1.Some? && location2.Some? && (primary.Constructs? || fallback.Constructs?) ==>
        var internal := InternalName(Synastry, req.personOne.name, sfx);
        var subject1 := PersonSubject(internal, req.personOne, location1.value, tz1);
        var subject2 := PersonSubject(PartnerName(Synastry, internal), req.personTwo, location2.value, tz2);
        var chart := PrimaryChart(subject1, Synastry, subject2, SelectedTheme(req.personOne.theme.Value()));
        var dir := old(files) + render(chart);
        && out.Returned?
        && out.value.status == "success"
        && out.value.p1 == req.personOne.name && out.value.p2 == req.personTwo.name
        && Extracted(dir, internal, out.value.svg)
        && files == Cleaned(dir, internal)
        && (forall f :: f in render(chart) ==> (f in files <==> f[0] == '.' || !render(chart)[f].removable))
        && forall f :: f in files && Matches(internal, f) ==> f in dir && !dir[f].removable
    {
      if location1.None? {
        return Raised("City 1 not found");
      }
      var loc1 := location1.value;
      var internal := InternalName(Synastry, req.personOne.name, sfx);
      var subject1 := PersonSubject(internal, req.personOne, loc1, tz1);
      if location2.None? {
        return Raised("City 2 not found");
      }
      var loc2 := location2.value;
      var subject2 := PersonSubject(PartnerName(Synastry, internal), req.personTwo, loc2, tz2);
      var userTheme := req.personOne.theme.Value();
      var selectedTheme := SelectedTheme(userTheme);
      var built := TwoSubjectChart(subject1, Synastry, subject2, selectedTheme, primary, fallback);
      if built.Raised? {
        return Raised(built.message);
      }
      var chart := built.value;
      MakeSvg(chart, render);
      var svg := ExtractSvgAndCleanup(internal);
      ContainsSelf(internal);
      NoArtifactOutlivesReport(old(files), render(chart), SubjectNames(chart), internal);
      out := Returned(SynastryReport(svg, "success", req.personOne.name, req.personTwo.name));
    }
  }
}
