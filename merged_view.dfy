/**
 * The structure of the panel page `_getMergedHtml` renders: which cards and
 * options appear, in which order, and with which text. Markup and styling
 * are not part of it.
 */
module MergedView {
  import opened Wrappers
  import opened KimaiTypes
  import opened Lookups
  import opened CustomerTable
  import opened OptionFilter
  import opened JsArray

  /** A card of a running timer; its Stop button stops the timesheet stopId. */
  datatype ActiveCard = ActiveCard(
    stopId: nat,
    projectName: string,
    activityName: string,
    description: Option<string>,
    tags: seq<string>)

  /** A card of a recent timer; index numbers the details block it toggles. */
  datatype RecentCard = RecentCard(
    index: nat,
    projectName: string,
    duration: string,
    activityName: string,
    description: Option<string>,
    tags: seq<string>)

  /** NoActiveTimers renders as the single paragraph "<p>No active timers.</p>". */
  datatype ActiveSection = NoActiveTimers | ActiveTimers(cards: seq<ActiveCard>)

  /**
   * The page: the two timer sections, the initial options of the Client,
   * Project and Activity selects, the tag checkboxes, and the two tables the
   * embedded script receives.
   */
  datatype Panel = Panel(
    active: ActiveSection,
    recent: seq<RecentCard>,
    clientOptions: seq<OptionItem>,
    projectOptions: seq<OptionItem>,
    activityOptions: seq<OptionItem>,
    tagChoices: seq<string>,
    projectsByCustomer: map<nat, seq<Project>>,
    activities: seq<Activity>)

  const SelectClient := OptionItem(None, "Select Client")

  /** An active card shows the description block when timesheet.description is truthy. */
  function ActiveDescription(description: Option<string>): Option<string> {
    if IsTruthy(description) then Some(EscapeQuotes(description.value)) else None
  }

  /** A recent card shows the description block when its safeDescription is not "". */
  function RecentDescription(description: Option<string>): Option<string> {
    var safe := SafeDescription(description);
    if safe != "" then Some(safe) else None
  }

  /**
   * The two cards decide differently whether to show a description, yet
   * show one for the same entries, with the same quote-free text.
   */
  lemma DescriptionRulesAgree(description: Option<string>)
    ensures ActiveDescription(description) == RecentDescription(description)
    ensures ActiveDescription(description).Some? <==> IsTruthy(description)
    ensures ActiveDescription(description).Some? ==> '"' !in ActiveDescription(description).value
  {
  }

  /** The card of a running timesheet: its Stop button stops it, and its description shows when truthy, quote-free. */
  function ActiveCardOf(projects: seq<Project>, activities: seq<Activity>, entry: TimesheetEntry): (card: ActiveCard)
    ensures card.stopId == entry.id && card.tags == entry.tags
    ensures card.description.Some? <==> IsTruthy(entry.description)
    ensures card.description.Some? ==> '"' !in card.description.value
  {
    DescriptionRulesAgree(entry.description);
    ActiveCard(entry.id, ProjectName(projects, entry.project), ActivityName(activities, entry.activity),
               ActiveDescription(entry.description), entry.tags)
  }

  /** The card of a recent timesheet: "(ongoing)" while it runs, its description shown when truthy, quote-free. */
  function RecentCardOf(projects: seq<Project>, activities: seq<Activity>, entry: TimesheetEntry, index: nat)
    : (card: RecentCard)
    ensures card.index == index && card.tags == entry.tags
    ensures card.duration == Ongoing <==> entry.endMs.None?
    ensures card.description.Some? <==> IsTruthy(entry.description)
    ensures card.description.Some? ==> '"' !in card.description.value
  {
    DescriptionRulesAgree(entry.description);
    RecentCard(index, ProjectName(projects, entry.project), DurationLabel(entry),
               ActivityName(activities, entry.activity), RecentDescription(entry.description), entry.tags)
  }

  /**
   * The active section: "No active timers." exactly when the list is empty,
   * otherwise one card per active timesheet, in order, each stopping its own
   * timesheet.
   */
  function ActiveSectionOf(projects: seq<Project>, activities: seq<Activity>, active: seq<TimesheetEntry>)
    : (section: ActiveSection)
    ensures section == NoActiveTimers <==> active == []
    ensures section.ActiveTimers? ==>
              |section.cards| == |active| && forall i | 0 <= i < |active| :: section.cards[i].stopId == active[i].id
  {
    if |active| > 0 then
      ActiveTimers(seq(|active|, i requires 0 <= i < |active| => ActiveCardOf(projects, activities, active[i])))
    else
      NoActiveTimers
  }

  /**
   * One card per recent timesheet, in order, numbered from 0; a card reads
   * "(ongoing)" exactly when its timesheet has no end.
   */
  function RecentCards(projects: seq<Project>, activities: seq<Activity>, recent: seq<TimesheetEntry>)
    : (cards: seq<RecentCard>)
    ensures |cards| == |recent|
    ensures forall i | 0 <= i < |cards| :: cards[i].index == i
    ensures forall i | 0 <= i < |cards| :: cards[i].duration == Ongoing <==> recent[i].endMs.None?
  {
    seq(|recent|, i requires 0 <= i < |recent| => RecentCardOf(projects, activities, recent[i], i))
  }

  function CustomerItem(c: Customer): OptionItem {
    OptionItem(Some(c.id), c.name)
  }

  /** The Client select: "Select Client" (value "") first, then one option per customer. */
  function ClientOptions(customers: seq<Customer>): (options: seq<OptionItem>)
    ensures |options| == |customers| + 1 && options[0] == SelectClient
    ensures forall i | 0 <= i < |customers| :: options[i + 1] == CustomerItem(customers[i])
  {
    [SelectClient] + seq(|customers|, i requires 0 <= i < |customers| => CustomerItem(customers[i]))
  }

  /** _getMergedHtml(customers, projects, activities, activeTimesheets, recentTimesheets, tags). */
  function MergedPanel(customers: seq<Customer>, projects: seq<Project>, activities: seq<Activity>,
                       active: seq<TimesheetEntry>, recent: seq<TimesheetEntry>, tags: seq<string>): (panel: Panel)
    ensures panel.active == NoActiveTimers <==> active == []
    ensures |panel.recent| == |recent|
    ensures panel.projectsByCustomer.Keys == CustomerIds(customers)
    ensures FirstValue(panel.clientOptions) == None
  {
    Panel(ActiveSectionOf(projects, activities, active),
          RecentCards(projects, activities, recent),
          ClientOptions(customers),
          ProjectItems(projects),
          ActivityItems(activities),
          tags,
          ProjectsByCustomer(customers, projects),
          activities)
  }

  /**
   * An active and a recent card of the same timesheet show the same project
   * name, activity name, description and tags: the two sections apply one
   * rule.
   */
  lemma ActiveAndRecentCardsAgree(projects: seq<Project>, activities: seq<Activity>, entry: TimesheetEntry, index: nat)
    ensures var a := ActiveCardOf(projects, activities, entry);
            var r := RecentCardOf(projects, activities, entry, index);
            a.projectName == r.projectName && a.activityName == r.activityName
            && a.description == r.description && a.tags == r.tags
  {
    DescriptionRulesAgree(entry.description);
  }

  /**
   * On the page as first rendered, the Client select starts on "Select
   * Client" and the Project and Activity selects list every project and
   * every activity, unfiltered and in the order received; the Project
   * select starts on the first project.
   */
  lemma MergedPanelInitialSelects(customers: seq<Customer>, projects: seq<Project>, activities: seq<Activity>,
                                  active: seq<TimesheetEntry>, recent: seq<TimesheetEntry>, tags: seq<string>)
    ensures var panel := MergedPanel(customers, projects, activities, active, recent, tags);
            && panel.clientOptions[0] == SelectClient
            && (forall i | 0 <= i < |projects| :: panel.projectOptions[i] == ProjectItem(projects[i]))
            && (forall i | 0 <= i < |activities| :: panel.activityOptions[i] == ActivityItem(activities[i]))
            && |panel.projectOptions| == |projects| && |panel.activityOptions| == |activities|
            && FirstValue(panel.projectOptions) == (if projects == [] then None else Some(projects[0].id))
  {
  }

  /**
   * The first-rendered Project select also lists projects whose customer is
   * not in the customer list; the list the script shows once the client is
   * reset to "Select Client" drops them, so the two differ.
   */
  lemma FirstRenderedProjectsUnfiltered(customers: seq<Customer>, projects: seq<Project>, activities: seq<Activity>,
                                        active: seq<TimesheetEntry>, recent: seq<TimesheetEntry>, tags: seq<string>,
                                        p: Project)
    requires p in projects && p.customer !in CustomerIds(customers)
    ensures var panel := MergedPanel(customers, projects, activities, active, recent, tags);
            panel.projectOptions != ProjectOptions(panel.projectsByCustomer, None)
  {
    var panel := MergedPanel(customers, projects, activities, active, recent, tags);
    var all := AllProjects(panel.projectsByCustomer);
    AllProjectsLength(customers, projects);
    FilterDrops(projects, OfKnownCustomer(CustomerIds(customers)), p);
    if |all| < 1 {
      assert panel.projectOptions[0].value.Some?;
    } else {
      assert |ProjectOptions(panel.projectsByCustomer, None)| == |all| < |projects|;
    }
  }

  /**
   * The first-rendered Activity select lists every activity, also those of
   * a project other than the one the Project select starts on; the list the
   * script shows for that project drops them, so the two differ.
   */
  lemma FirstRenderedActivitiesUnfiltered(customers: seq<Customer>, projects: seq<Project>, activities: seq<Activity>,
                                          active: seq<TimesheetEntry>, recent: seq<TimesheetEntry>, tags: seq<string>,
                                          a: Activity)
    requires a in activities && a.project.Some?
    requires projects == [] || a.project != Some(projects[0].id)
    ensures var panel := MergedPanel(customers, projects, activities, active, recent, tags);
            panel.activityOptions != ActivityOptions(activities, FirstValue(panel.projectOptions))
  {
    var panel := MergedPanel(customers, projects, activities, active, recent, tags);
    match FirstValue(panel.projectOptions)
    case None =>
      assert panel.activityOptions[0].value.Some?;
    case Some(id) =>
      assert id == projects[0].id;
      FilterDrops(activities, OfferedFor(id), a);
      assert |ActivityOptions(activities, Some(id))| < |activities|;
  }
}
