/**
 * The records of the launch dashboard: stage keys and statuses, recorded actual dates,
 * rule sets, collections, properties and the derived per-stage timeline view.
 *
 * Calendar dates are whole day numbers (days since 1970-01-01, UTC midnight). The clock
 * ("now") is an epoch-millisecond integer, so that a comparison of the clock with a
 * date keeps its time-of-day meaning.
 */
module Types {
  import opened Wrappers

  /** A calendar date as a day number. */
  type Day = int

  /** Milliseconds in a day and in a week. */
  const MsInDay: int := 1000 * 60 * 60 * 24
  const MsInWeek: int := MsInDay * 7

  /** The seven pipeline stages. */
  datatype StageKey =
    | SalesToCloseGroup
    | LegalOnboarding
    | FindProperties
    | Renovation
    | DesignInstall
    | OnboardingHome
    | GoLive

  /** Every stage key. */
  const AllStages: set<StageKey> :=
    {SalesToCloseGroup, LegalOnboarding, FindProperties, Renovation, DesignInstall, OnboardingHome, GoLive}

  lemma AllStagesComplete()
    ensures forall k: StageKey :: k in AllStages
  {
    forall k: StageKey
      ensures k in AllStages
    {
      match k
      case SalesToCloseGroup =>
      case LegalOnboarding =>
      case FindProperties =>
      case Renovation =>
      case DesignInstall =>
      case OnboardingHome =>
      case GoLive =>
    }
  }

  /** The five-way stage classification. */
  datatype StageStatus = Planned | InProgress | Delayed | Overdue | Complete

  datatype UserRole = Leadership | Operations | Legal | Finance | PM | HomeExperience | Marketing

  /** A catalog entry; the display-only colour, form-field name and description are not modelled. */
  datatype StageDefinition = StageDefinition(key: StageKey, labelText: string, owner: UserRole)

  /** A recorded actual start and/or end for one stage; None means not recorded. */
  datatype StageActual = StageActual(
    stage: StageKey,
    actualStart: Option<Day>,
    actualEnd: Option<Day>,
    notes: Option<string>)

  /** Default stage durations, in whole weeks, for one (collection type, region) pair. */
  datatype RuleSet = RuleSet(
    id: string,
    collectionType: string,
    region: string,
    labelText: string,
    durationsWeeks: map<StageKey, nat>,
    updatedAt: string)

  datatype CollectionDocument = CollectionDocument(
    id: string,
    title: string,
    docType: string,
    uploadedBy: string,
    uploadedAt: string,
    url: Option<string>)

  datatype CollectionRecord = CollectionRecord(
    id: string,
    name: string,
    code: string,
    regionFocus: string,
    description: string,
    propertyIds: seq<string>,
    documents: seq<CollectionDocument>)

  datatype Priority = Low | Medium | High

  /** One launch property. An absent `customDurations` is the empty map. */
  datatype PropertyRecord = PropertyRecord(
    id: string,
    name: string,
    code: string,
    collectionId: string,
    collectionName: string,
    collectionType: string,
    productType: string,
    region: string,
    pm: string,
    stageActuals: seq<StageActual>,
    groupClosingDate: Day,
    priority: Priority,
    riskNotes: Option<string>,
    customDurations: map<StageKey, nat>)

  /** The resolved view of one stage. */
  datatype StageTimelineEntry = StageTimelineEntry(
    key: StageKey,
    labelText: string,
    owner: UserRole,
    plannedStart: Day,
    plannedEnd: Day,
    forecastStart: Day,
    forecastEnd: Day,
    actualStart: Option<Day>,
    actualEnd: Option<Day>,
    durationWeeks: nat,
    status: StageStatus,
    delayDays: nat,
    notes: Option<string>)

  /** The overall risk bucket of a property ("On track", "Minor delays", "High risk"). */
  datatype RiskSummary = OnTrack | MinorDelays | HighRisk {
    function Text(): string {
      match this
      case OnTrack => "On track"
      case MinorDelays => "Minor delays"
      case HighRisk => "High risk"
    }
  }

  /** The resolved schedule of one property. */
  datatype PropertyTimelineView = PropertyTimelineView(
    property: PropertyRecord,
    ruleSet: RuleSet,
    stages: seq<StageTimelineEntry>,
    plannedGoLive: Day,
    forecastGoLive: Day,
    totalDelayDays: nat,
    statusSummary: RiskSummary)

  /**
   * One stage's outcome of the stage editor: the dates read from the form (absent when the
   * field was empty or not a date) and whether the stage's recorded entry is to be removed.
   */
  datatype StageEditorUpdate = StageEditorUpdate(
    stage: StageKey,
    actualStart: Option<Day>,
    actualEnd: Option<Day>,
    clear: bool)
}
