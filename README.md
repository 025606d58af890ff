# Build configurator derivation layer, in Dafny

This project models the derivation layer of the build configurator on the
download page. That layer is a set of pure selectors over the store's `build`
slice, and it computes what the page shows:

- the scalar predicates: build selected, Gradle, Maven or archive (ZIP) mode,
  release channel, downloading;
- the radio fields `mode`, `preset`, `language` and `version`, each a list of
  `{value, label, disabled}` rows built by mapping over its catalog's `allIds`;
- the checkbox fields `descriptions`, `source`, `javadoc`, `compact` and
  `hardcoded`, each with `checked`, `hidden` and `disabled`;
- whether each panel of the page is shown: configuration, bundler, language
  and version.

Module `Catalog` (`catalog.dfy`) holds the normalised reference data
(`allIds` in display order, `byId` metadata) and the radio-option row. It also
holds generic lemmas that count enabled rows. Module `BuildConfigurator`
(`build_configurator.dfy`) holds the state, the selectors, the field views, the
panel predicates and the properties proved about them.

Each `createSelector` is modelled as its combiner. The combiner is a function of
the input selectors' values only (`ModeOptions(modes, isNightly)`,
`PresetOptions(presets, mode, build)`, `LanguageOptions(languages)`,
`VersionOptions(versions, latest)`). A field function such as `ModeField(s)`
applies the combiner to the state. Memoising on those inputs therefore cannot
change a result.

The version-gating rule is kept exactly as written:
`!(v[0] < latest[0] || v[1] < latest[1] || v[2] <= latest[2])`
(`VersionAdmitted`). It is compared with a lexicographic reference order,
`NotNewer`. Every version that is not newer than `latest` is offered. Within one
major.minor line the rule is exact. Some newer versions are offered as well: for
example 3.0.0 against a latest of 2.1.0 passes through the middle disjunct.
`latest` could be read as a minimum acceptable version. The code, however,
disables precisely the versions whose major and minor are each at least
`latest`'s and whose patch is greater than `latest`'s (`VersionDisabledExactly`);
every other version is offered. The model follows the code.

A few names differ from the source. Dafny reserves the word `label`, so the row
and checkbox field is named `caption`. The source's `null` channel is `None`.
The nightly comparison that several fields inline is named `IsBuildNightly`.

## Model

| member | source | states |
|---|---|---|
| BuildConfigurator.PredicatesComplementary | client/routes/download/BuildConfigurator/index.js:35-39 | `isModeZip`/`isModeNotZip` and `isDownloading`/`isNotDownloading` are complements |
| BuildConfigurator.ModePredicatesExclusive | client/routes/download/BuildConfigurator/index.js:33-35 | at most one of Gradle, Maven and ZIP holds, and (the mode being one of three) one does |
| BuildConfigurator.BuildSelectedIffChannel | client/routes/download/BuildConfigurator/index.js:32-37 | a build is selected exactly when the channel is not null; release implies selected and not nightly |
| BuildConfigurator.ModeOptions | client/routes/download/BuildConfigurator/index.js:46-56 | one mode row per catalog id, in catalog order, with that id as value and its title as label |
| BuildConfigurator.PresetOptions | client/routes/download/BuildConfigurator/index.js:62-73 | one preset row per catalog id, in order, valued by the id and labelled by its title |
| BuildConfigurator.LanguageOptions | client/routes/download/BuildConfigurator/index.js:79-88 | one language row per catalog id, in order, valued by the id and labelled by its title |
| BuildConfigurator.VersionOptions | client/routes/download/BuildConfigurator/index.js:94-108 | one version row per catalog id, in order; both its value and its label are the id itself |
| BuildConfigurator.ModeOptionEnabledIff | client/routes/download/BuildConfigurator/index.js:48-53 | a mode row is enabled exactly when it is ZIP or the channel is nightly |
| BuildConfigurator.ModeEnabledCount | client/routes/download/BuildConfigurator/index.js:48-55 | under nightly every mode row is enabled; otherwise the enabled rows are ZIP's occurrences, at most one for a duplicate-free catalog |
| BuildConfigurator.PresetOptionsShareFlag | client/routes/download/BuildConfigurator/index.js:64-71 | every preset row is disabled exactly when the mode is ZIP and the channel is not nightly |
| BuildConfigurator.PresetEnabledCount | client/routes/download/BuildConfigurator/index.js:66-72 | either no preset row or every preset row is enabled, according to that flag |
| BuildConfigurator.LanguageOptionEnabledIff | client/routes/download/BuildConfigurator/index.js:81-86 | a language row is enabled exactly when its id is `groovy` |
| BuildConfigurator.LanguageEnabledCount | client/routes/download/BuildConfigurator/index.js:81-87 | the enabled language rows are groovy's occurrences, so at most one for a duplicate-free catalog |
| BuildConfigurator.VersionOptionEnabledIff | client/routes/download/BuildConfigurator/index.js:96-104 | a version row is enabled exactly when the verbatim rule admits its semver against `builds.byId[build].latest` |
| BuildConfigurator.NotNewerIsAdmitted | client/routes/download/BuildConfigurator/index.js:104 | every version lexicographically not newer than `latest`, and `latest` itself, is enabled |
| BuildConfigurator.AdmittedWithinMinorLine | client/routes/download/BuildConfigurator/index.js:104 | for equal major and minor the rule is exactly `patch <= latest.patch`, which is the lexicographic order |
| BuildConfigurator.NewerMayBeAdmitted | client/routes/download/BuildConfigurator/index.js:104 | the rule is not a lexicographic comparator: some version newer than `latest` is enabled |
| BuildConfigurator.OlderMinorAdmitted | client/routes/download/BuildConfigurator/index.js:104 | 2.2.9 against a latest of 2.3.0 is enabled |
| BuildConfigurator.SelectionMayBeDisabled | client/routes/download/BuildConfigurator/index.js:42-55 | the field value is the stored mode, unvalidated: a non-ZIP selection outside nightly is shown as a disabled row |
| BuildConfigurator.ArtifactsForcedOutsideNightly | client/routes/download/BuildConfigurator/index.js:115-128 | outside nightly the source and javadoc boxes are checked and disabled, whatever is stored |
| BuildConfigurator.ArtifactsFreeUnderNightly | client/routes/download/BuildConfigurator/index.js:115-128 | under nightly they show the stored value and are enabled |
| BuildConfigurator.ArtifactsHiddenIff | client/routes/download/BuildConfigurator/index.js:119-126 | the source and javadoc boxes are hidden exactly when the mode is not ZIP |
| BuildConfigurator.BuildScriptBoxesHiddenIff | client/routes/download/BuildConfigurator/index.js:129-140 | compact is hidden exactly when not Maven and hardcoded exactly when ZIP; neither is disabled; both show the stored value |
| BuildConfigurator.DescriptionsAlwaysPlain | client/routes/download/BuildConfigurator/index.js:110-114 | the descriptions box is never hidden or disabled and shows the stored value |
| BuildConfigurator.ArchiveOrScriptBoxes | client/routes/download/BuildConfigurator/index.js:115-140 | in ZIP mode compact and hardcoded are hidden; source and javadoc are hidden exactly when hardcoded is visible; a visible compact box means source is hidden |
| BuildConfigurator.ConfigXorBundler | client/routes/download/BuildConfigurator/index.js:157-195 | the configuration and bundler panels are never both shown; with a build selected one of them is |
| BuildConfigurator.NothingWithoutBuild | client/routes/download/BuildConfigurator/index.js:157-198 | with no channel selected none of the four panels is shown |
| BuildConfigurator.InnerPanelsGated | client/routes/download/BuildConfigurator/index.js:177-185 | the language panel requires Gradle and the version panel requires release, both while not downloading |
| BuildConfigurator.VersionPanelHasLatest | client/routes/download/BuildConfigurator/index.js:182-185 | whenever the version panel shows and the builds catalog knows release, the `latest` lookup of line 96 succeeds and is release's |
| BuildConfigurator.NightlyGradle | client/routes/download/BuildConfigurator/index.js:62-88 | under nightly and Gradle every preset is enabled, only groovy languages are enabled, and the language panel shows unless downloading |
| BuildConfigurator.IsBuildSelected | client/routes/download/BuildConfigurator/index.js:32 | a channel is selected (not null); see BuildSelectedIffChannel |
| BuildConfigurator.IsModeGradle | client/routes/download/BuildConfigurator/index.js:33 | the mode is Gradle; see ModePredicatesExclusive |
| BuildConfigurator.IsModeMaven | client/routes/download/BuildConfigurator/index.js:34 | the mode is Maven; see ModePredicatesExclusive |
| BuildConfigurator.IsModeZip | client/routes/download/BuildConfigurator/index.js:35 | the mode is ZIP; see ModePredicatesExclusive and PredicatesComplementary |
| BuildConfigurator.IsModeNotZip | client/routes/download/BuildConfigurator/index.js:36 | the mode is not ZIP; see PredicatesComplementary |
| BuildConfigurator.IsBuildRelease | client/routes/download/BuildConfigurator/index.js:37 | the channel is release; see BuildSelectedIffChannel |
| BuildConfigurator.IsDownloading | client/routes/download/BuildConfigurator/index.js:38 | the stored `downloading` flag; see PredicatesComplementary |
| BuildConfigurator.IsNotDownloading | client/routes/download/BuildConfigurator/index.js:39 | the negated `downloading` flag; see PredicatesComplementary |
| BuildConfigurator.IsBuildNightly | client/routes/download/BuildConfigurator/index.js:48 | the channel is nightly, the comparison lines 48, 70, 117-127 inline; see BuildSelectedIffChannel |
| BuildConfigurator.ModeField | client/routes/download/BuildConfigurator/index.js:42-56 | the mode field: name `mode`, the stored mode as value, ModeOptions on the channel; see ModeOptionEnabledIff, ModeEnabledCount, SelectionMayBeDisabled |
| BuildConfigurator.PresetField | client/routes/download/BuildConfigurator/index.js:58-74 | the preset field: name `preset`, the stored preset, PresetOptions; see PresetOptionsShareFlag, PresetEnabledCount |
| BuildConfigurator.LanguageField | client/routes/download/BuildConfigurator/index.js:75-89 | the language field: name `language`, the stored language, LanguageOptions; see LanguageOptionEnabledIff, LanguageEnabledCount |
| BuildConfigurator.VersionField | client/routes/download/BuildConfigurator/index.js:90-109 | the version field: name `version`, the stored version, VersionOptions against the channel's `latest`; see VersionOptionEnabledIff |
| BuildConfigurator.HasLatest | client/routes/download/BuildConfigurator/index.js:96 | the lookup `builds.byId[build]` can succeed: a channel is selected and listed; see VersionPanelHasLatest |
| BuildConfigurator.Latest | client/routes/download/BuildConfigurator/index.js:96 | the selected channel's `latest` triple; see VersionPanelHasLatest |
| BuildConfigurator.VersionAdmitted | client/routes/download/BuildConfigurator/index.js:104 | the verbatim version-gating disjunction; see VersionDisabledExactly, NotNewerIsAdmitted, NewerMayBeAdmitted |
| BuildConfigurator.VersionDisabledExactly | client/routes/download/BuildConfigurator/index.js:104 | a version is disabled exactly when its major and minor are each at least `latest`'s and its patch is greater |
| BuildConfigurator.DescriptionsField | client/routes/download/BuildConfigurator/index.js:110-114 | the descriptions box; see DescriptionsAlwaysPlain |
| BuildConfigurator.SourceField | client/routes/download/BuildConfigurator/index.js:115-121 | the source box: checked `source || not nightly`, hidden when not ZIP, disabled when not nightly; see ArtifactsForcedOutsideNightly, ArtifactsFreeUnderNightly, ArtifactsHiddenIff |
| BuildConfigurator.JavadocField | client/routes/download/BuildConfigurator/index.js:122-128 | the javadoc box, with the same three rules as the source box; see the same lemmas |
| BuildConfigurator.CompactField | client/routes/download/BuildConfigurator/index.js:129-134 | the compact box, hidden when not Maven; see BuildScriptBoxesHiddenIff |
| BuildConfigurator.HardcodedField | client/routes/download/BuildConfigurator/index.js:135-140 | the no-variables box, hidden in ZIP mode; see BuildScriptBoxesHiddenIff, ArchiveOrScriptBoxes |
| BuildConfigurator.ShowsConfigPanel | client/routes/download/BuildConfigurator/index.js:157-160 | the configuration panel: a build is selected and not downloading; see ConfigXorBundler |
| BuildConfigurator.ShowsBundlerPanel | client/routes/download/BuildConfigurator/index.js:157-195 | the bundler panel: a build is selected and downloading; see ConfigXorBundler, NothingWithoutBuild |
| BuildConfigurator.ShowsLanguagePanel | client/routes/download/BuildConfigurator/index.js:177-180 | the language panel, inside the configuration panel, for Gradle; see InnerPanelsGated |
| BuildConfigurator.ShowsVersionPanel | client/routes/download/BuildConfigurator/index.js:182-185 | the version panel, inside the configuration panel, for release; see InnerPanelsGated, VersionPanelHasLatest |

## Left out

- The action creators, the reducer and the download saga (`./actions`, `./reducer`, `./saga`) are outside the derivation layer and are not modelled. So the toggle actions, the mode/preset/version change handlers, the re-entrancy guard of the download start and the idle/downloading/error machine are not modelled; only the `downloading` flag they maintain is read.
- The React components (`ControlledPanel`, `ControlledRadio`, `ControlledCheckbox`, `BuildType`, `BuildPlatform`, `BuildArtifacts`, `BuildDownload`, `BuildScript`, `BuildBundler`) and the JSX markup are presentation and are not part of this model. The panel structure of `BuildContainer` is kept only as the four `Shows…Panel` predicates.
- The `action` key of each field description is left out, because it points into the action creators. The `name` key of the radio fields is kept.
- Memoisation by `reselect` is not modelled: each selector is a plain function of its inputs.
- The concrete values in `./constants` are not modelled. The channels and modes are distinct enum members, and a channel that is neither release, stable nor nightly cannot be expressed.
- The commented-out error alert is dead code and is left out.
- Catalog lookups carry preconditions instead of modelling JavaScript's failure on a missing key. Every listed id must have metadata (`WellFormed`). The version field also needs the selected channel in `builds.byId` (`HasLatest`). Without them `index.js` would throw a `TypeError` while rendering.
- A checkbox description that omits `hidden` or `disabled` is modelled with `false`. How `ControlledCheckbox` reads a missing key is outside this model.
- Version triples are unbounded integers with exactly three components. JavaScript number semantics and arrays of other lengths are not modelled.
- The state-level invariant that the stored preset, language and version are catalog ids is not enforced by the selectors, so it is not modelled.
