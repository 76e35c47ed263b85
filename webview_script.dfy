/**
 * The panel's embedded script at work on the page: the Client, Project and
 * Activity selects, and the two onchange handlers that refill them.
 */
module WebviewScript {
  import opened Wrappers
  import opened KimaiTypes
  import opened CustomerTable
  import opened OptionFilter
  import opened MergedView

  /** A single-choice <select>: its options and the selected index (-1 when it has none). */
  class SelectElement {
    var options: seq<OptionItem>
    var selectedIndex: int

    ghost predicate Valid()
      reads this
    {
      -1 <= selectedIndex < |options| && (selectedIndex == -1 <==> options == [])
    }

    /** A select as the page declares it: its first option is selected. */
    constructor (initial: seq<OptionItem>)
      ensures Valid() && options == initial && selectedIndex <= 0
    {
      options := initial;
      selectedIndex := if initial == [] then -1 else 0;
    }

    /** select.value: the selected option's value, "" when the select is empty. */
    function Value(): (v: Option<nat>)
      reads this
      requires Valid()
      ensures selectedIndex <= 0 ==> v == FirstValue(options)
    {
      if selectedIndex == -1 then None else options[selectedIndex].value
    }

    /** select.innerHTML = '': every option is removed. */
    method Clear()
      modifies this
      ensures Valid() && options == [] && selectedIndex <= 0
    {
      options := [];
      selectedIndex := -1;
    }

    /** select.appendChild(option): an option added to an empty select becomes selected. */
    method Append(item: OptionItem)
      requires Valid()
      modifies this
      ensures Valid() && options == old(options) + [item]
      ensures selectedIndex == if old(options) == [] then 0 else old(selectedIndex)
    {
      options := options + [item];
      if selectedIndex == -1 {
        selectedIndex := 0;
      }
    }

    /** The user picks the option at index i. */
    method Choose(i: nat)
      requires Valid() && i < |options|
      modifies this
      ensures Valid() && options == old(options) && selectedIndex == i
    {
      selectedIndex := i;
    }
  }

  class PanelScript {
    const projectsByCustomer: map<nat, seq<Project>>
    const activities: seq<Activity>
    const client: SelectElement
    const project: SelectElement
    const activity: SelectElement

    ghost predicate Valid()
      reads client, project, activity
    {
      client.Valid() && project.Valid() && activity.Valid()
      && client != project && client != activity && project != activity
    }

    /** The script of a freshly rendered page: the selects hold the page's initial options. */
    constructor (panel: Panel)
      ensures Valid() && fresh(client) && fresh(project) && fresh(activity)
      ensures projectsByCustomer == panel.projectsByCustomer && activities == panel.activities
      ensures client.options == panel.clientOptions && project.options == panel.projectOptions
      ensures activity.options == panel.activityOptions
      ensures client.selectedIndex <= 0 && project.selectedIndex <= 0 && activity.selectedIndex <= 0
      ensures client.Value() == FirstValue(panel.clientOptions)
    {
      projectsByCustomer := panel.projectsByCustomer;
      activities := panel.activities;
      client := new SelectElement(panel.clientOptions);
      project := new SelectElement(panel.projectOptions);
      activity := new SelectElement(panel.activityOptions);
    }

    /** projects.forEach(p => projectSelect.appendChild(option of p)). */
    method AppendProjects(projects: seq<Project>)
      requires Valid() && project.selectedIndex <= 0
      modifies project
      ensures Valid() && project.selectedIndex <= 0
      ensures project.options == old(project.options) + ProjectItems(projects)
    {
      var i := 0;
      while i < |projects|
        invariant 0 <= i <= |projects|
        invariant Valid() && project.selectedIndex <= 0
        invariant project.options == old(project.options) + ProjectItems(projects[..i])
      {
        project.Append(ProjectItem(projects[i]));
        assert ProjectItems(projects[..i + 1]) == ProjectItems(projects[..i]) + [ProjectItem(projects[i])];
        i := i + 1;
      }
      assert projects[..i] == projects;
    }

    /** updateActivitiesOptions(): refill the Activity select for the selected project. */
    method UpdateActivitiesOptions()
      requires Valid()
      modifies activity
      ensures Valid() && activity.selectedIndex <= 0
      ensures activity.options == ActivityOptions(activities, project.Value())
    {
      var selected := project.Value();
      activity.Clear();
      match selected {
        case None =>
          activity.Append(NoActivitiesPlaceholder);
        case Some(id) =>
          AppendOfferedActivities(id);
      }
    }

    /** activities.forEach(a => { if (offered for id) activitySelect.appendChild(option of a) }). */
    method AppendOfferedActivities(id: nat)
      requires Valid() && activity.options == [] && activity.selectedIndex <= 0
      modifies activity
      ensures Valid() && activity.selectedIndex <= 0
      ensures activity.options == ActivityItems(ActivitiesFor(activities, id))
    {
      var acts := activities;
      var i := 0;
      while i < |acts|
        invariant 0 <= i <= |acts|
        invariant Valid() && activity.selectedIndex <= 0
        invariant activity.options == OfferedOptions(acts[..i], id)
      {
        var a := acts[i];
        OfferedStep(acts[..i], a, id);
        assert acts[..i + 1] == acts[..i] + [a];
        if a.project == Some(id) || a.project == None {
          activity.Append(ActivityItem(a));
        }
        i := i + 1;
      }
      assert acts[..i] == acts;
    }

    /**
     * updateProjectOptions(): refill the Project select for the selected
     * client, then the Activity select for the project now selected, which
     * is the first of the new options.
     */
    method UpdateProjectOptions()
      requires Valid()
      modifies project, activity
      ensures Valid() && project.selectedIndex <= 0 && activity.selectedIndex <= 0
      ensures project.options == ProjectOptions(projectsByCustomer, client.Value())
      ensures activity.options == ActivityOptions(activities, FirstValue(project.options))
    {
      var selected := client.Value();
      project.Clear();
      match selected {
        case None =>
          var all := AllProjects(projectsByCustomer);
          if |all| < 1 {
            project.Append(NoProjectsPlaceholder);
          } else {
            AppendProjects(all);
          }
        case Some(id) =>
          var projects := if id in projectsByCustomer then projectsByCustomer[id] else [];
          if |projects| < 1 {
            project.Append(NoProjectsPlaceholder);
          }
          AppendProjects(projects);
      }
      UpdateActivitiesOptions();
    }

    /**
     * The user picks client option i. The browser fires the Client
     * select's onchange, and so updateProjectOptions runs, only when the
     * pick changes the selection; picking the selected option again changes
     * nothing else.
     */
    method ChooseClient(i: nat)
      requires Valid() && i < |client.options|
      modifies client, project, activity
      ensures Valid() && client.options == old(client.options) && client.selectedIndex == i
      ensures client.Value() == client.options[i].value
      ensures i == old(client.selectedIndex) ==> unchanged(project, activity)
      ensures i != old(client.selectedIndex) ==>
                && project.selectedIndex <= 0 && activity.selectedIndex <= 0
                && project.options == ProjectOptions(projectsByCustomer, client.options[i].value)
                && activity.options == ActivityOptions(activities, FirstValue(project.options))
    {
      if i != client.selectedIndex {
        client.Choose(i);
        UpdateProjectOptions();
      }
    }

    /**
     * The user picks project option i. The Project select's onchange, and so
     * updateActivitiesOptions, runs only when the pick changes the
     * selection; picking the selected option again changes nothing else.
     */
    method ChooseProject(i: nat)
      requires Valid() && i < |project.options|
      modifies project, activity
      ensures Valid() && project.options == old(project.options) && project.selectedIndex == i
      ensures project.Value() == project.options[i].value
      ensures i == old(project.selectedIndex) ==> unchanged(activity)
      ensures i != old(project.selectedIndex) ==>
                && activity.selectedIndex <= 0
                && activity.options == ActivityOptions(activities, project.options[i].value)
    {
      if i != project.selectedIndex {
        project.Choose(i);
        UpdateActivitiesOptions();
      }
    }
  }

  /** The options of the activities offered for project id. */
  function OfferedOptions(acts: seq<Activity>, id: nat): seq<OptionItem> {
    ActivityItems(ActivitiesFor(acts, id))
  }

  /** One more activity extends the offered options by its option exactly when it is offered. */
  lemma OfferedStep(prefix: seq<Activity>, a: Activity, id: nat)
    ensures OfferedOptions(prefix + [a], id)
            == OfferedOptions(prefix, id)
               + (if a.project == Some(id) || a.project == None then [ActivityItem(a)] else [])
  {
    var x := ActivitiesFor(prefix, id);
    var y := ActivitiesFor([a], id);
    ActivitiesForAppend(prefix, [a], id);
    assert y == if a.project == Some(id) || a.project == None then [a] else [];
    ActivityItemsAppend(x, y);
  }
}
