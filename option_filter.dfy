/**
 * The option lists of the panel's Project and Activity selects, as the
 * embedded script's updateProjectOptions and updateActivitiesOptions
 * choose them.
 */
module OptionFilter {
  import opened Wrappers
  import opened KimaiTypes
  import opened JsArray
  import opened CustomerTable

  /** An <option>: its value (None for the empty string "") and its text. */
  datatype OptionItem = OptionItem(value: Option<nat>, text: string)

  const NoProjectsPlaceholder := OptionItem(None, "No Projects available")
  const NoActivitiesPlaceholder := OptionItem(None, "No Activities available")

  function ProjectItem(p: Project): OptionItem {
    OptionItem(Some(p.id), p.name)
  }

  function ActivityItem(a: Activity): OptionItem {
    OptionItem(Some(a.id), a.name)
  }

  function ProjectItems(projects: seq<Project>): (r: seq<OptionItem>)
    ensures |r| == |projects| && forall i | 0 <= i < |r| :: r[i] == ProjectItem(projects[i])
  {
    seq(|projects|, i requires 0 <= i < |projects| => ProjectItem(projects[i]))
  }

  function ActivityItems(activities: seq<Activity>): (r: seq<OptionItem>)
    ensures |r| == |activities| && forall i | 0 <= i < |r| :: r[i] == ActivityItem(activities[i])
  {
    seq(|activities|, i requires 0 <= i < |activities| => ActivityItem(activities[i]))
  }

  /** The options of two lists of activities, one after another. */
  lemma ActivityItemsAppend(x: seq<Activity>, y: seq<Activity>)
    ensures ActivityItems(x + y) == ActivityItems(x) + ActivityItems(y)
  {
    assert |ActivityItems(x + y)| == |ActivityItems(x) + ActivityItems(y)|;
    forall i | 0 <= i < |x + y|
      ensures ActivityItems(x + y)[i] == (ActivityItems(x) + ActivityItems(y))[i]
    {
      if i < |x| {
        assert (x + y)[i] == x[i];
      } else {
        assert (x + y)[i] == y[i - |x|];
      }
    }
  }

  /** The value a select reports once freshly filled: that of its first option, "" when it has none. */
  function FirstValue(options: seq<OptionItem>): Option<nat> {
    if options == [] then None else options[0].value
  }

  /** An activity is offered for a project when it belongs to that project or to none. */
  function OfferedFor(projectId: nat): Activity -> bool {
    (a: Activity) => a.project == Some(projectId) || a.project == None
  }

  /** activities filtered as updateActivitiesOptions' forEach keeps them. */
  function ActivitiesFor(activities: seq<Activity>, projectId: nat): (r: seq<Activity>)
    ensures forall i | 0 <= i < |r| :: r[i].project == Some(projectId) || r[i].project == None
    ensures forall a :: a in r <==> a in activities && (a.project == Some(projectId) || a.project == None)
  {
    Filter(activities, OfferedFor(projectId))
  }

  lemma ActivitiesForAppend(a: seq<Activity>, b: seq<Activity>, projectId: nat)
    ensures ActivitiesFor(a + b, projectId) == ActivitiesFor(a, projectId) + ActivitiesFor(b, projectId)
  {
    FilterAppend(a, b, OfferedFor(projectId));
  }

  /**
   * The Project select after updateProjectOptions with the given client
   * selection: with no client, every project of the table (or the
   * placeholder when there is none); with a client, the placeholder when
   * it has no projects, followed by its projects.
   */
  function ProjectOptions(table: map<nat, seq<Project>>, client: Option<nat>): (r: seq<OptionItem>)
    ensures r != []
    ensures forall i | 0 <= i < |r| :: r[i] == NoProjectsPlaceholder || r[i].value.Some?
  {
    match client
    case None =>
      var all := AllProjects(table);
      if |all| < 1 then [NoProjectsPlaceholder] else ProjectItems(all)
    case Some(id) =>
      var projects := if id in table then table[id] else [];
      (if |projects| < 1 then [NoProjectsPlaceholder] else []) + ProjectItems(projects)
  }

  /**
   * The Activity select after updateActivitiesOptions with the given
   * project selection: the placeholder alone when no project is selected,
   * otherwise the activities offered for that project.
   */
  function ActivityOptions(activities: seq<Activity>, project: Option<nat>): (r: seq<OptionItem>)
    ensures project.None? ==> r == [NoActivitiesPlaceholder]
    ensures project.Some? ==> forall i | 0 <= i < |r| :: r[i].value.Some?
  {
    match project
    case None => [NoActivitiesPlaceholder]
    case Some(id) => ActivityItems(ActivitiesFor(activities, id))
  }

  /**
   * Choosing a client lists exactly that client's projects, in their
   * original order, or the placeholder alone when it has none; the project
   * then selected is the first of them, or none.
   */
  lemma ProjectOptionsForClient(customers: seq<Customer>, projects: seq<Project>, client: nat)
    ensures var options := ProjectOptions(ProjectsByCustomer(customers, projects), Some(client));
            var own := ProjectsOf(projects, client);
            && (client !in CustomerIds(customers) || own == [] ==> options == [NoProjectsPlaceholder])
            && (client in CustomerIds(customers) && own != [] ==> options == ProjectItems(own))
            && FirstValue(options) == (if client in CustomerIds(customers) && own != [] then Some(own[0].id) else None)
  {
  }

  /**
   * With no client chosen, the options are the projects of known
   * customers (each as often as listed, grouped by ascending customer id),
   * or the placeholder alone when there is none.
   */
  lemma ProjectOptionsForNoClient(customers: seq<Customer>, projects: seq<Project>)
    ensures var table := ProjectsByCustomer(customers, projects);
            var options := ProjectOptions(table, None);
            && ((forall p | p in projects :: p.customer !in CustomerIds(customers)) <==> options == [NoProjectsPlaceholder])
            && ((exists p | p in projects :: p.customer in CustomerIds(customers)) ==> options == ProjectItems(AllProjects(table)))
  {
    var table := ProjectsByCustomer(customers, projects);
    AllProjectsMembers(customers, projects);
    var all := AllProjects(table);
    var options := ProjectOptions(table, None);
    if exists p | p in projects :: p.customer in CustomerIds(customers) {
      var p :| p in projects && p.customer in CustomerIds(customers);
      assert p in all;
      assert options == ProjectItems(all);
      assert options[0] == ProjectItem(all[0]);
      assert options != [NoProjectsPlaceholder];
    } else {
      forall p ensures multiset(all)[p] == 0 {
        AllProjectsCount(customers, projects, p);
      }
      assert multiset(all) == multiset{};
      assert |all| == |multiset(all)| == 0;
    }
  }

  /**
   * The Activity select lists the placeholder alone exactly when no
   * project is selected; otherwise it lists the activities of the selected
   * project and those of no project, in their original order, and nothing
   * else.
   */
  lemma ActivityOptionsMeaning(activities: seq<Activity>, project: Option<nat>)
    ensures ActivityOptions(activities, project) == [NoActivitiesPlaceholder] <==> project.None?
    ensures project.Some? ==>
              forall item | item in ActivityOptions(activities, project) ::
                exists a | a in activities :: item == ActivityItem(a)
                  && (a.project == project || a.project == None)
    ensures project.Some? ==>
              forall a | a in activities && (a.project == project || a.project == None) ::
                ActivityItem(a) in ActivityOptions(activities, project)
  {
    if project.Some? {
      var options := ActivityOptions(activities, project);
      var offered := ActivitiesFor(activities, project.value);
      forall item | item in options
        ensures exists a | a in activities :: item == ActivityItem(a) && (a.project == project || a.project == None)
      {
        var i :| 0 <= i < |options| && options[i] == item;
        assert offered[i] in offered;
      }
      forall a | a in activities && (a.project == project || a.project == None)
        ensures ActivityItem(a) in options
      {
        var i :| 0 <= i < |offered| && offered[i] == a;
        assert options[i] == ActivityItem(a);
      }
      if |options| > 0 {
        assert options[0] == ActivityItem(offered[0]);
      }
    }
  }

  /** The offered activities keep the order of the activity list. */
  lemma ActivityOptionsAppend(x: seq<Activity>, y: seq<Activity>, projectId: nat)
    ensures ActivityOptions(x + y, Some(projectId))
            == ActivityOptions(x, Some(projectId)) + ActivityOptions(y, Some(projectId))
  {
    ActivitiesForAppend(x, y, projectId);
    ActivityItemsAppend(ActivitiesFor(x, projectId), ActivitiesFor(y, projectId));
  }

  /**
   * Unlike the Project select, the Activity select gets no placeholder when
   * the selected project has no activity: it is left empty.
   */
  lemma ActivityOptionsCanBeEmpty(activities: seq<Activity>, projectId: nat)
    ensures ActivityOptions(activities, Some(projectId)) == []
            <==> forall a | a in activities :: !(a.project == Some(projectId) || a.project == None)
  {
    var offered := ActivitiesFor(activities, projectId);
    if offered != [] {
      assert offered[0] in offered;
    }
  }

  /**
   * Choosing a client without projects leaves the Project select on its
   * placeholder, whose empty value makes the Activity select show only its
   * own placeholder.
   */
  lemma ClientWithoutProjectsHasNoActivities(customers: seq<Customer>, projects: seq<Project>,
                                             activities: seq<Activity>, client: nat)
    requires ProjectsOf(projects, client) == []
    ensures var options := ProjectOptions(ProjectsByCustomer(customers, projects), Some(client));
            options == [NoProjectsPlaceholder]
            && ActivityOptions(activities, FirstValue(options)) == [NoActivitiesPlaceholder]
  {
    ProjectOptionsForClient(customers, projects, client);
  }
}
