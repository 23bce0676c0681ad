# Natal chart report service — a Dafny model

This project models the report service of a small HTTP back end that draws astrological charts
(`NatalchartrulerService` in `app/services/natalchartruler_service.py`). For a natal, transit or
synastry request the service resolves the city, builds one or two subjects under an internal name,
has an external engine render an SVG into a shared output directory, and then recovers that file:
it picks the newest file matching `*{internal_name}*.svg`, reads it, and deletes every match
whether or not the read succeeded.

The model has seven modules:

- `Wrappers` — `Option` (Python's `None`) and `Outcome` (a call returns or raises with a message).
- `Schema` — the request enumerations (`ChartType`, `Theme`, `HouseSystem`) and records.
- `Naming` — substring containment, the random-suffix type, the theme choice and the
  internal-name scheme (`{name}_{sfx}`, `Transit_…` with `T_…`, `Syn_…` with `P2_…`), one function per concept keyed on the chart mode.
- `Planets` — the seven reported bodies and the `planets` map.
- `Artifacts` — the output directory as a map from file name to `FileEntry(mtime, content, removable)`,
  the glob pattern, and the specification of one extraction (`Extracted`, `Cleaned`) with its lemmas;
  `Newest` is the `max(..., key=os.path.getmtime)` loop.
- `Charts` — subject and chart records, and the primary/fallback construction of two-subject charts.
  `PersonSubject` and `MomentSubject` are the argument records of the `AstrologicalSubject` calls
  (lines 26-29 and 88-93) and `SingleChart` that of the one-subject `KerykeionChartSVG` call
  (lines 38-42); they only gather fields and carry no contract of their own.
- `Service` — the class `NatalchartrulerService` with the directory as a field, the extractor as a
  method with its deletion loop, and the three report methods.

External services are parameters of the report methods: the geocoder's answer is an
`Option<Location>`, the timezone lookup's answer an `Option<string>`, the six-character suffix a
`Suffix`, the engine's planet placements a function `Body -> Placement`, the two constructor calls'
outcomes a `Construction` each, and the renderer a function from the chart it is given to the files
it writes. The renderer is assumed (`RendersUnderSubjectNames`) to write only SVG files
whose name, before the extension, contains one of the chart's subject names; the source does not
show the engine's file naming, so this is an assumption and not a proved fact. It does not exclude
hidden names or files `os.remove` cannot delete, and `SubjectNamedEngineMeetsAssumption` shows an engine that starts every file name
with the first subject's name satisfies it.

Glob matching is modelled as: the name does not start with `.` (glob skips hidden names for a
pattern beginning with `*`), it ends in `.svg`, and the internal name occurs in the part before that
extension. A file whose content is `None` is one that cannot be opened or decoded; a file that is
not `removable` is one on which `os.remove` fails, a failure the source swallows.

## Model

| member | source | states |
|---|---|---|
| `Service.NatalchartrulerService.ExtractSvgAndCleanup` | app/services/natalchartruler_service.py:179-205 | the result is `None` with no match, otherwise the read result of a newest match; the new directory is exactly the old one with every removable match deleted (the deletion loop runs on the read-failure path too) |
| `Artifacts.Newest` | app/services/natalchartruler_service.py:187 | returns a member of the matches whose mtime is at least that of every match |
| `Artifacts.Matches` | app/services/natalchartruler_service.py:180 | the stem-and-extension test holds exactly when the glob `*{internal}*.svg` matches: a name not starting with '.' that splits as anything, the internal name, anything, ".svg" |
| `Artifacts.StemTestIsGlob` | app/services/natalchartruler_service.py:180 | both directions of the equivalence between the computed test and the literal glob reading |
| `Artifacts.MatchSet` | app/services/natalchartruler_service.py:180-181 | the found files are exactly the directory's names that the literal glob reading `*{internal}*.svg` accepts |
| `Artifacts.RemoveFound` | app/services/natalchartruler_service.py:197-203 | after the loop over the found names, a name stays iff it was present and was not a removable found name, with its entry unchanged |
| `Artifacts.NoMatchNoChange` | app/services/natalchartruler_service.py:180-185 | with no matching file the extractor returns `None` and the directory is unchanged |
| `Artifacts.ExtractedIsNewest` | app/services/natalchartruler_service.py:187-195 | returned content belongs to a matching file no match is newer than; `None` with matches present means that newest file was unreadable |
| `Artifacts.ExtractedDeterminate` | app/services/natalchartruler_service.py:187 | when the matches have distinct mtimes, the returned value is uniquely determined |
| `Artifacts.CleanedFrame` | app/services/natalchartruler_service.py:196-203 | non-matching files keep name, mtime and content; a match survives iff it cannot be removed; nothing changes value |
| `Artifacts.CleanedIdempotent` | app/services/natalchartruler_service.py:180-205 | a second extraction sees only the undeletable matches and deletes nothing more |
| `Artifacts.RepeatedExtraction` | app/services/natalchartruler_service.py:180-205 | when every match is removable, no match is left, and a second extraction returns `None` and leaves the directory unchanged |
| `Artifacts.PartnerArtifactMatches` | app/services/natalchartruler_service.py:180 | a file matched by a second subject's name, which contains the internal name, is matched by the internal name's pattern too |
| `Artifacts.NoArtifactOutlivesReport` | app/services/natalchartruler_service.py:180-203 | after render then extraction, a rendered file remains exactly when its name is hidden or `os.remove` fails on it; every match left cannot be removed, and non-matching files are untouched |
| `Artifacts.StemTestIsGlobIncludingHidden` | app/services/natalchartruler_service.py:180 | both directions of the equivalence between the stem test without the hidden-name rule and the literal reading of `*{internal}*.svg` with hidden names included (a split as anything, the internal name, anything, ".svg") |
| `Artifacts.MatchSetIncludingHidden` | app/services/natalchartruler_service.py:180-181 | the names found once hidden names are included are exactly the directory's names that the literal hidden-inclusive glob reading accepts |
| `Artifacts.HiddenAwareCleanupLeavesNoArtifact` | app/services/natalchartruler_service.py:180-203 | with hidden names included in the pattern, every rendered file is found, so a `None` result means a found file was unreadable; a rendered file remains exactly when `os.remove` fails on it, whatever its name, and non-matching files are untouched |
| `Naming.SelectedTheme` | app/services/natalchartruler_service.py:36 | the chosen theme is `None` iff the value is "Classic", and otherwise the value itself |
| `Naming.SchemaThemeAlwaysOverrides` | app/schemas/shema.py:11-13 | both schema themes are passed through verbatim; the renderer default is never chosen |
| `Schema.Theme.Value` | app/schemas/shema.py:11-13 | no schema theme's value is "Classic" |
| `Naming.InternalName` | app/services/natalchartruler_service.py:24 | the first subject's internal name (`{name}_{sfx}`, and with the `Transit_` and `Syn_` prefixes of lines 79 and 132) contains the person's name |
| `Naming.InternalNameHidden` | app/services/natalchartruler_service.py:24 | an internal name starts with '.' exactly when it is a natal name for a person whose name starts with '.' (the prefixed transit and synastry names never do) |
| `Naming.PartnerName` | app/services/natalchartruler_service.py:89 | the second subject's name (`T_{internal}`, and `P2_{internal}` at line 147) contains the internal name and differs from it |
| `Naming.SuffixSeparatesNames` | app/services/natalchartruler_service.py:24 | for one person and mode, different suffixes give different internal names |
| `Naming.InternalNameInjective` | app/services/natalchartruler_service.py:24 | within one mode, the internal name determines both the person's name and the suffix |
| `Naming.ContainsTransitive` | app/services/natalchartruler_service.py:180 | substring containment is transitive (what makes the partner names match the pattern) |
| `Planets.PlanetsData` | app/services/natalchartruler_service.py:45-53 | the `planets` map has exactly the keys Sun to Saturn, each holding that body's placement |
| `Planets.KeysNameOneBody` | app/services/natalchartruler_service.py:45-53 | every key of the map names exactly one body |
| `Charts.PrimaryChart` | app/services/natalchartruler_service.py:99-105 | the two-subject chart the engine is assumed to build (also at lines 157-163) has the requested mode, the first subject, the second subject as `second_subject`, and draws exactly both subjects' names |
| `Charts.TransitFallback` | app/services/natalchartruler_service.py:108-112 | the transit fallback chart is tagged "Transit", keeps the first subject and theme, has the transit subject as `t_subject`, `second_obj` and `second_subject`, and draws both names |
| `Charts.SynastryFallback` | app/services/natalchartruler_service.py:166-169 | the synastry fallback chart is tagged "Synastry", keeps the first subject and theme, has the second subject as `second_obj` and `second_subject`, no `t_subject`, and draws both names |
| `Charts.FallbackAgreesWithPrimary` | app/services/natalchartruler_service.py:108-112 | the fallback's attribute assignments (and those at lines 166-169) give exactly the record `PrimaryChart` assumes the two-subject constructor builds, for transit and for synastry |
| `Charts.TwoSubjectChart` | app/services/natalchartruler_service.py:98-112 | a chart is built iff the primary or the fallback construction succeeds, it equals the assumed primary record `PrimaryChart` whichever path built it, and otherwise the fallback's exception propagates |
| `Service.NatalchartrulerService.MakeSvg` | app/services/natalchartruler_service.py:43 | the renderer's files are added to the directory |
| `Service.NatalchartrulerService.GetFullReport` | app/services/natalchartruler_service.py:17-68 | an unresolved city raises "City '…' not found" and changes nothing; otherwise the report has the seven bodies, the location info and the extracted SVG, and a rendered file remains exactly when its name is hidden or `os.remove` fails on it; every match left cannot be removed |
| `Service.NatalchartrulerService.GetTransitReport` | app/services/natalchartruler_service.py:70-124 | an unresolved city returns `{"error": "City not found"}` without raising; both constructions failing raises; otherwise status "success", the transit moment, the raw theme value, the extracted SVG, and a rendered file remains exactly when its name is hidden or `os.remove` fails on it; every match left cannot be removed |
| `Service.NatalchartrulerService.GetSynastryReport` | app/services/natalchartruler_service.py:126-177 | either unresolved city raises ("City 1 not found", "City 2 not found"); both constructions failing raises; otherwise status "success", both names, the extracted SVG, and a rendered file remains exactly when its name is hidden or `os.remove` fails on it; every match left cannot be removed |
| `Service.SubjectNamedEngineMeetsAssumption` | app/services/natalchartruler_service.py:43 | an engine writing "{first subject's name} - Chart.svg" satisfies the renderer assumption, so the report methods' precondition can be met |
| `Service.HiddenNatalOutputIsAdmitted` | app/services/natalchartruler_service.py:24 | the natal internal name for ".x" with suffix "abc123" is ".x_abc123", and the file ".x_abc123 - Natal Chart.svg" is admitted output for it |
| `Service.HiddenArtifactEscapesGlob` | app/services/natalchartruler_service.py:180-203 | the glob finds nothing in that file's directory, the extractor returns `None`, and the file stays |
| `Service.HiddenNatalArtifactLeaks` | app/services/natalchartruler_service.py:180-203 | for that request, the rendered chart is output for the internal name, yet extraction returns `None` instead of its content and leaves the file behind |
| `Service.HiddenAwareExtractionFindsArtifact` | app/services/natalchartruler_service.py:180-203 | with hidden names included, the same request gets the chart's content back, not `None`, and no file is left |
| `Service.NatalchartrulerService.constructor` | app/services/natalchartruler_service.py:12-15 | the service starts over the given output directory |

## Left out

- Geocoding (Nominatim) and timezone lookup (TimezoneFinder): network and foreign-library calls; their answers are inputs.
- The astrological engine (kerykeion): subject construction, planet positions and houses, SVG drawing. Positions and coordinates are floats in the source and are opaque `real` values here; the engine's output file names are an assumption of the render step.
- `AstrologicalSubject` constructions that raise (for instance on a missing timezone): such an exception comes before `makeSVG`, so it leaves no rendered file; every subject construction is modelled as succeeding.
- The one-subject `KerykeionChartSVG` call of the natal report (line 38) and every `makeSVG` call are modelled as succeeding. A `makeSVG` that raised after writing would skip extraction and leave its files behind.
- Charts.PrimaryChart: the chart the engine's two-subject constructor builds is not visible; the record (mode, both subjects, the transit subject as `t_subject`) is an assumption about the engine.
- The house-system assignment wrapped in a bare `except: pass` (lines 31-34): the attribute lives on a foreign object.
- The random suffix `uuid.uuid4().hex[:6]`: taken as a `Suffix` parameter of six characters (their hex alphabet is not recorded); its probabilistic uniqueness across concurrent requests is not modelled, and neither is concurrency.
- Glob details: wildcard characters inside a user-supplied name, and ordering among equal mtimes (any maximal file may be chosen). The `os.path.exists` check before each removal is kept, but the race it guards against is not.
- Artifacts.Newest: `max(..., key=os.path.getmtime)` runs before the `try`, so a match that vanished or is a dangling symlink makes `getmtime` raise out of the extractor before any deletion; the model's directory has no such entries and `Newest` always succeeds.
- Directory structure: a '/' in a person's name makes the pattern span directory segments, and the engine may then write outside the output directory; the flat `Directory` map of names cannot represent that.
- Modification times are integers here; the source compares floats. Only their order matters.
- `transit_date.isoformat()`: the transit report returns the moment itself, not its text, and `Moment` keeps only year to minute; the seconds, microseconds and timezone that `isoformat()` reports are not modelled.
- `print` logging throughout the service.
- The HTTP layer (app/main.py), the configuration (app/core/config.py) and the pydantic validation and defaults of the request schema.

## Findings

| source | as written | input that shows it | evidently intended | confidence | as-written member | corrected member |
|---|---|---|---|---|---|---|
| app/services/natalchartruler_service.py:180-181 | the pattern `*{internal}*.svg` skips hidden names, so a natal chart for a person whose name starts with '.' is neither returned nor deleted | name ".x", suffix "abc123", engine file ".x_abc123 - Natal Chart.svg" | the chart drawn for the internal name is found, and no file for it outlives the report | medium; not executed, depends on the engine naming its file after the subject | `Service.HiddenNatalArtifactLeaks` | `Service.HiddenAwareExtractionFindsArtifact` |
