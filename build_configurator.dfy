/**
 * The derivation layer of the build configurator of the download page: the
 * pure selectors that read the configuration state and compute what the page
 * shows (scalar predicates, per-field view models and panel visibility).
 *
 * Every `createSelector` of `index.js` is modelled as its combiner, a
 * function of the input selectors' values only (ModeOptions, PresetOptions,
 * LanguageOptions, VersionOptions), applied to the state by the field
 * function (ModeField, ...). Memoising the combiner on those values can
 * therefore not change any result.
 */
module BuildConfigurator {
  import opened Catalog

  /** `None` stands for the configurator's `null`. */
  datatype Option<+T> = None | Some(value: T)

  /** Build channels; the configurator's constants are only compared for equality. */
  datatype Build = RELEASE | STABLE | NIGHTLY

  /** Packaging modes. */
  datatype Mode = ZIP | MAVEN | GRADLE

  /** A `[major, minor, patch]` version triple. */
  datatype Semver = Semver(major: int, minor: int, patch: int)

  datatype VersionMeta = VersionMeta(semver: Semver)

  /** Per build channel, the `latest` version triple. */
  datatype BuildMeta = BuildMeta(latest: Semver)

  /** The `build` slice of the store, as far as the selectors read it. */
  datatype State = State(
    mode: Mode,
    build: Option<Build>,
    preset: string,
    language: string,
    version: string,
    downloading: bool,
    descriptions: bool,
    source: bool,
    javadoc: bool,
    compact: bool,
    hardcoded: bool,
    modes: Catalog<Mode, Titled>,
    presets: Catalog<string, Titled>,
    languages: Catalog<string, Titled>,
    versions: Catalog<string, VersionMeta>,
    builds: Catalog<Build, BuildMeta>)

  // ---------------------------------------------------------------------
  // Scalar predicates

  predicate IsBuildSelected(s: State) { s.build != None }
  predicate IsModeGradle(s: State) { s.mode == GRADLE }
  predicate IsModeMaven(s: State) { s.mode == MAVEN }
  predicate IsModeZip(s: State) { s.mode == ZIP }
  predicate IsModeNotZip(s: State) { s.mode != ZIP }
  predicate IsBuildRelease(s: State) { s.build == Some(RELEASE) }
  predicate IsDownloading(s: State) { s.downloading }
  predicate IsNotDownloading(s: State) { !s.downloading }

  /** The comparison with the nightly channel that several fields inline. */
  predicate IsBuildNightly(s: State) { s.build == Some(NIGHTLY) }

  lemma PredicatesComplementary(s: State)
    ensures IsModeZip(s) != IsModeNotZip(s)
    ensures IsDownloading(s) != IsNotDownloading(s)
  {
  }

  /** Exactly one mode predicate holds, since the mode is one of three. */
  lemma ModePredicatesExclusive(s: State)
    ensures !(IsModeGradle(s) && IsModeMaven(s))
    ensures !(IsModeGradle(s) && IsModeZip(s))
    ensures !(IsModeMaven(s) && IsModeZip(s))
    ensures IsModeGradle(s) || IsModeMaven(s) || IsModeZip(s)
  {
  }

  /** A build is selected exactly when the channel is not null; release implies selected. */
  lemma BuildSelectedIffChannel(s: State)
    ensures IsBuildSelected(s) <==> s.build.Some?
    ensures IsBuildRelease(s) ==> IsBuildSelected(s)
    ensures IsBuildRelease(s) ==> !IsBuildNightly(s)
  {
  }

  // ---------------------------------------------------------------------
  // Radio fields

  /** A radio field: its name, the stored selection and the option rows. */
  datatype RadioField<K> = RadioField(name: string, value: K, options: seq<RadioOption<K>>)

  /** Combiner of the mode options: only the archive mode is offered outside nightly. */
  function ModeOptions(modes: Catalog<Mode, Titled>, isNightly: bool): (opts: seq<RadioOption<Mode>>)
    requires WellFormed(modes)
    ensures FollowsTitles(opts, modes)
  {
    seq(|modes.allIds|, i requires 0 <= i < |modes.allIds| =>
      var mode := modes.allIds[i];
      RadioOption(mode, modes.byId[mode].title, mode != ZIP && !isNightly))
  }

  function ModeField(s: State): RadioField<Mode>
    requires WellFormed(s.modes)
  {
    RadioField("mode", s.mode, ModeOptions(s.modes, IsBuildNightly(s)))
  }

  /** Combiner of the preset options: presets are locked for the archive mode outside nightly. */
  function PresetOptions(presets: Catalog<string, Titled>, mode: Mode, build: Option<Build>): (opts: seq<RadioOption<string>>)
    requires WellFormed(presets)
    ensures FollowsTitles(opts, presets)
  {
    seq(|presets.allIds|, i requires 0 <= i < |presets.allIds| =>
      var preset := presets.allIds[i];
      RadioOption(preset, presets.byId[preset].title, mode == ZIP && build != Some(NIGHTLY)))
  }

  function PresetField(s: State): RadioField<string>
    requires WellFormed(s.presets)
  {
    RadioField("preset", s.preset, PresetOptions(s.presets, s.mode, s.build))
  }

  /** The one language that is currently offered. */
  const Groovy: string := "groovy"

  /** Combiner of the language options. */
  function LanguageOptions(languages: Catalog<string, Titled>): (opts: seq<RadioOption<string>>)
    requires WellFormed(languages)
    ensures FollowsTitles(opts, languages)
  {
    seq(|languages.allIds|, i requires 0 <= i < |languages.allIds| =>
      var lang := languages.allIds[i];
      RadioOption(lang, languages.byId[lang].title, lang != Groovy))
  }

  function LanguageField(s: State): RadioField<string>
    requires WellFormed(s.languages)
  {
    RadioField("language", s.language, LanguageOptions(s.languages))
  }

  /**
   * The version-gating comparison exactly as `index.js` writes it: a
   * version `v` is offered when `v[0] < latest[0] || v[1] < latest[1] ||
   * v[2] <= latest[2]`. It is NOT a lexicographic comparison.
   */
  predicate VersionAdmitted(v: Semver, latest: Semver)
  {
    v.major < latest.major || v.minor < latest.minor || v.patch <= latest.patch
  }

  /** Lexicographic order of version triples, as a reference for the rule above. */
  predicate NotNewer(v: Semver, latest: Semver)
  {
    || v.major < latest.major
    || (v.major == latest.major && v.minor < latest.minor)
    || (v.major == latest.major && v.minor == latest.minor && v.patch <= latest.patch)
  }

  /** Combiner of the version options: a version is labelled by its own id. */
  function VersionOptions(versions: Catalog<string, VersionMeta>, latest: Semver): (opts: seq<RadioOption<string>>)
    requires WellFormed(versions)
    ensures FollowsIds(opts, versions.allIds)
    ensures forall i :: 0 <= i < |opts| ==> opts[i].caption == versions.allIds[i]
  {
    seq(|versions.allIds|, i requires 0 <= i < |versions.allIds| =>
      var version := versions.allIds[i];
      var semver := versions.byId[version].semver;
      RadioOption(version, version, !VersionAdmitted(semver, latest)))
  }

  /** `builds.byId[build].latest` is looked up, so a build must be selected and known. */
  predicate HasLatest(s: State)
  {
    s.build.Some? && s.build.value in s.builds.byId
  }

  function Latest(s: State): Semver
    requires HasLatest(s)
  {
    s.builds.byId[s.build.value].latest
  }

  function VersionField(s: State): RadioField<string>
    requires WellFormed(s.versions) && HasLatest(s)
  {
    RadioField("version", s.version, VersionOptions(s.versions, Latest(s)))
  }

  // Mode options

  /** A mode row is enabled exactly when it is the archive mode or the channel is nightly. */
  lemma ModeOptionEnabledIff(s: State, i: int)
    requires WellFormed(s.modes) && 0 <= i < |s.modes.allIds|
    ensures !ModeField(s).options[i].disabled <==> (s.modes.allIds[i] == ZIP || IsBuildNightly(s))
  {
  }

  /**
   * Under nightly every mode is enabled; otherwise just the archive mode's
   * rows, hence at most one row when the catalog lists no id twice.
   */
  lemma ModeEnabledCount(s: State)
    requires WellFormed(s.modes)
    ensures IsBuildNightly(s) ==> CountEnabled(ModeField(s).options) == |s.modes.allIds|
    ensures !IsBuildNightly(s) ==> CountEnabled(ModeField(s).options) == multiset(s.modes.allIds)[ZIP]
    ensures !IsBuildNightly(s) && Distinct(s.modes.allIds) ==> CountEnabled(ModeField(s).options) <= 1
  {
    var opts := ModeField(s).options;
    if IsBuildNightly(s) {
      EnabledCountUniform(opts, false);
    } else {
      EnabledCountIsOccurrences(opts, s.modes.allIds, ZIP);
      if Distinct(s.modes.allIds) {
        DistinctOccursAtMostOnce(s.modes.allIds, ZIP);
      }
    }
  }

  // Preset options

  /** All preset rows carry one flag: locked exactly in archive mode outside nightly. */
  lemma PresetOptionsShareFlag(s: State, i: int)
    requires WellFormed(s.presets) && 0 <= i < |s.presets.allIds|
    ensures PresetField(s).options[i].disabled <==> (IsModeZip(s) && !IsBuildNightly(s))
  {
  }

  /** Either every preset is enabled or none is. */
  lemma PresetEnabledCount(s: State)
    requires WellFormed(s.presets)
    ensures CountEnabled(PresetField(s).options) == if IsModeZip(s) && !IsBuildNightly(s) then 0 else |s.presets.allIds|
  {
    EnabledCountUniform(PresetField(s).options, IsModeZip(s) && !IsBuildNightly(s));
  }

  // Language options

  lemma LanguageOptionEnabledIff(s: State, i: int)
    requires WellFormed(s.languages) && 0 <= i < |s.languages.allIds|
    ensures !LanguageField(s).options[i].disabled <==> s.languages.allIds[i] == Groovy
  {
  }

  /** Only the groovy rows are enabled, so at most one when no id is listed twice. */
  lemma LanguageEnabledCount(s: State)
    requires WellFormed(s.languages)
    ensures CountEnabled(LanguageField(s).options) == multiset(s.languages.allIds)[Groovy]
    ensures Distinct(s.languages.allIds) ==> CountEnabled(LanguageField(s).options) <= 1
  {
    EnabledCountIsOccurrences(LanguageField(s).options, s.languages.allIds, Groovy);
    if Distinct(s.languages.allIds) {
      DistinctOccursAtMostOnce(s.languages.allIds, Groovy);
    }
  }

  // Version options

  /** A version row is enabled exactly when the verbatim rule admits its triple. */
  lemma VersionOptionEnabledIff(s: State, i: int)
    requires WellFormed(s.versions) && HasLatest(s) && 0 <= i < |s.versions.allIds|
    ensures !VersionField(s).options[i].disabled
        <==> VersionAdmitted(s.versions.byId[s.versions.allIds[i]].semver, Latest(s))
  {
  }

  /** Every version that is not newer than `latest`, `latest` itself included, is offered. */
  lemma NotNewerIsAdmitted(v: Semver, latest: Semver)
    ensures NotNewer(v, latest) ==> VersionAdmitted(v, latest)
    ensures VersionAdmitted(latest, latest)
  {
  }

  /**
   * The versions the rule disables: those whose major and minor are each at
   * least `latest`'s and whose patch is past `latest`'s.
   */
  lemma VersionDisabledExactly(v: Semver, latest: Semver)
    ensures !VersionAdmitted(v, latest)
        <==> v.major >= latest.major && v.minor >= latest.minor && v.patch > latest.patch
  {
  }

  /** Within one major.minor line the rule is the patch comparison. */
  lemma AdmittedWithinMinorLine(v: Semver, latest: Semver)
    requires v.major == latest.major && v.minor == latest.minor
    ensures VersionAdmitted(v, latest) <==> v.patch <= latest.patch
    ensures VersionAdmitted(v, latest) <==> NotNewer(v, latest)
  {
  }

  /**
   * The rule also offers versions newer than `latest`: 3.0.0 against the
   * latest 2.1.0 passes through its middle disjunct.
   */
  lemma NewerMayBeAdmitted()
    ensures exists v: Semver, latest: Semver :: VersionAdmitted(v, latest) && !NotNewer(v, latest)
  {
    var v, latest := Semver(3, 0, 0), Semver(2, 1, 0);
    assert VersionAdmitted(v, latest) && !NotNewer(v, latest);
  }

  /** A worked case: 2.2.9 against the latest 2.3.0 is offered. */
  lemma OlderMinorAdmitted()
    ensures VersionAdmitted(Semver(2, 2, 9), Semver(2, 3, 0))
  {
  }

  /**
   * The stored selection is not validated against the options: the field's
   * value may be a row that is disabled, e.g. a non-archive mode outside nightly.
   */
  lemma SelectionMayBeDisabled(s: State, i: int)
    requires WellFormed(s.modes) && 0 <= i < |s.modes.allIds|
    requires s.modes.allIds[i] == s.mode && s.mode != ZIP && !IsBuildNightly(s)
    ensures ModeField(s).value == ModeField(s).options[i].value
    ensures ModeField(s).options[i].disabled
  {
  }

  // ---------------------------------------------------------------------
  // Checkbox fields

  /**
   * A checkbox field as displayed. A `hidden` or `disabled` the configurator
   * leaves out of a field's description is `false` here.
   */
  datatype CheckboxView = CheckboxView(caption: string, checked: bool, hidden: bool, disabled: bool)

  function DescriptionsField(s: State): CheckboxView
  {
    CheckboxView("Show descriptions", s.descriptions, false, false)
  }

  function SourceField(s: State): CheckboxView
  {
    CheckboxView("Include source", s.source || !IsBuildNightly(s), IsModeNotZip(s), !IsBuildNightly(s))
  }

  function JavadocField(s: State): CheckboxView
  {
    CheckboxView("Include JavaDoc", s.javadoc || !IsBuildNightly(s), IsModeNotZip(s), !IsBuildNightly(s))
  }

  function CompactField(s: State): CheckboxView
  {
    CheckboxView("Compact Mode", s.compact, !IsModeMaven(s), false)
  }

  function HardcodedField(s: State): CheckboxView
  {
    CheckboxView("Do not use variables", s.hardcoded, IsModeZip(s), false)
  }

  /** Outside nightly the source and javadoc boxes are shown checked and locked. */
  lemma ArtifactsForcedOutsideNightly(s: State)
    requires !IsBuildNightly(s)
    ensures SourceField(s).checked && SourceField(s).disabled
    ensures JavadocField(s).checked && JavadocField(s).disabled
  {
  }

  /** Under nightly they show the stored choice and can be changed. */
  lemma ArtifactsFreeUnderNightly(s: State)
    requires IsBuildNightly(s)
    ensures SourceField(s).checked == s.source && !SourceField(s).disabled
    ensures JavadocField(s).checked == s.javadoc && !JavadocField(s).disabled
  {
  }

  /** The source and javadoc boxes appear exactly in archive mode. */
  lemma ArtifactsHiddenIff(s: State)
    ensures SourceField(s).hidden <==> s.mode != ZIP
    ensures JavadocField(s).hidden <==> s.mode != ZIP
  {
  }

  /** Compact appears only for Maven, "no variables" in every mode but the archive. */
  lemma BuildScriptBoxesHiddenIff(s: State)
    ensures CompactField(s).hidden <==> s.mode != MAVEN
    ensures HardcodedField(s).hidden <==> s.mode == ZIP
    ensures !CompactField(s).disabled && !HardcodedField(s).disabled
    ensures CompactField(s).checked == s.compact && HardcodedField(s).checked == s.hardcoded
  {
  }

  /** The descriptions box always shows the stored value and is always usable. */
  lemma DescriptionsAlwaysPlain(s: State)
    ensures DescriptionsField(s).checked == s.descriptions
    ensures !DescriptionsField(s).hidden && !DescriptionsField(s).disabled
  {
  }

  /**
   * The archive mode shows the artifact boxes and neither build-script box;
   * every other mode shows "no variables" instead of the artifact boxes.
   */
  lemma ArchiveOrScriptBoxes(s: State)
    ensures IsModeZip(s) ==> CompactField(s).hidden && HardcodedField(s).hidden
    ensures SourceField(s).hidden <==> !HardcodedField(s).hidden
    ensures JavadocField(s).hidden <==> !HardcodedField(s).hidden
    ensures !CompactField(s).hidden ==> SourceField(s).hidden
  {
  }

  // ---------------------------------------------------------------------
  // Panels of the page, each nested inside the build-selected panel

  predicate ShowsConfigPanel(s: State) { IsBuildSelected(s) && IsNotDownloading(s) }
  predicate ShowsBundlerPanel(s: State) { IsBuildSelected(s) && IsDownloading(s) }
  predicate ShowsLanguagePanel(s: State) { ShowsConfigPanel(s) && IsModeGradle(s) }
  predicate ShowsVersionPanel(s: State) { ShowsConfigPanel(s) && IsBuildRelease(s) }

  /** With a build selected, exactly one of the configuration and bundler panels shows. */
  lemma ConfigXorBundler(s: State)
    ensures !(ShowsConfigPanel(s) && ShowsBundlerPanel(s))
    ensures IsBuildSelected(s) ==> ShowsConfigPanel(s) || ShowsBundlerPanel(s)
  {
  }

  /** Without a build channel nothing below the channel choice is shown. */
  lemma NothingWithoutBuild(s: State)
    requires s.build == None
    ensures !ShowsConfigPanel(s) && !ShowsBundlerPanel(s)
    ensures !ShowsLanguagePanel(s) && !ShowsVersionPanel(s)
  {
  }

  lemma InnerPanelsGated(s: State)
    ensures ShowsLanguagePanel(s) ==> s.mode == GRADLE && !s.downloading
    ensures ShowsVersionPanel(s) ==> s.build == Some(RELEASE) && !s.downloading
  {
  }

  /**
   * The version panel is shown only under release, so its options can be
   * computed whenever the builds catalog knows the release channel.
   */
  lemma VersionPanelHasLatest(s: State)
    requires ShowsVersionPanel(s) && RELEASE in s.builds.byId
    ensures HasLatest(s) && Latest(s) == s.builds.byId[RELEASE].latest
  {
  }

  /** Nightly in Gradle mode: presets stay open and only groovy is offered. */
  lemma NightlyGradle(s: State, i: int, j: int)
    requires IsBuildNightly(s) && IsModeGradle(s)
    requires WellFormed(s.presets) && WellFormed(s.languages)
    requires 0 <= i < |s.presets.allIds| && 0 <= j < |s.languages.allIds|
    ensures !PresetField(s).options[i].disabled
    ensures LanguageField(s).options[j].disabled <==> s.languages.allIds[j] != Groovy
    ensures ShowsLanguagePanel(s) <==> !s.downloading
  {
  }
}
