/**
 * The per-entry text of a timer card: project and activity names with their
 * fallbacks, the quote-escaped description, and the duration label.
 */
module Lookups {
  import opened Wrappers
  import opened KimaiTypes
  import opened JsArray
  import opened Duration

  const NoProject := "No Project"
  const UnknownProject := "Unknown Project"
  const Ongoing := "(ongoing)"

  function ProjectHasId(id: nat): Project -> bool {
    (p: Project) => p.id == id
  }

  function ActivityHasId(id: nat): Activity -> bool {
    (a: Activity) => a.id == id
  }

  /**
   * The project name of a card: "No Project" for an entry without a project,
   * the name of the first project with the entry's id, and "Unknown Project"
   * when no project has that id.
   */
  function ProjectName(projects: seq<Project>, project: Option<nat>): (name: string)
    ensures project.None? ==> name == NoProject
    ensures project.Some? && (forall i | 0 <= i < |projects| :: projects[i].id != project.value)
            ==> name == UnknownProject
    ensures project.Some? ==>
              forall i | 0 <= i < |projects| && projects[i].id == project.value
                         && (forall j | 0 <= j < i :: projects[j].id != project.value)
                :: name == projects[i].name
  {
    match project
    case None => NoProject
    case Some(id) =>
      match FindIndex(projects, ProjectHasId(id))
      case Some(i) => projects[i].name
      case None => UnknownProject
  }

  /** The activity name of a card: the first activity with the entry's id, or "" when none has it. */
  function ActivityName(activities: seq<Activity>, activity: nat): (name: string)
    ensures (forall i | 0 <= i < |activities| :: activities[i].id != activity) ==> name == ""
    ensures forall i | 0 <= i < |activities| && activities[i].id == activity
                       && (forall j | 0 <= j < i :: activities[j].id != activity)
              :: name == activities[i].name
  {
    match FindIndex(activities, ActivityHasId(activity))
    case Some(i) => activities[i].name
    case None => ""
  }

  /** description.replace(/"/g, "&quot;"): every double quote becomes the entity &quot;. */
  function EscapeQuotes(s: string): (r: string)
    ensures '"' !in r
    ensures '"' !in s ==> r == s
    ensures |r| >= |s|
  {
    if s == [] then []
    else (if s[0] == '"' then "&quot;" else [s[0]]) + EscapeQuotes(s[1..])
  }

  /**
   * Decoding of the &quot; entity alone; every other character, '<' and
   * '&' included, is taken as it stands.
   */
  function UnescapeQuotes(s: string): string {
    if |s| >= 6 && s[..6] == "&quot;" then ['"'] + UnescapeQuotes(s[6..])
    else if s == [] then []
    else [s[0]] + UnescapeQuotes(s[1..])
  }

  /** Decoding &quot; after escaping gives back every description that holds no '&'. */
  lemma {:induction false} EscapeQuotesRoundTrip(s: string)
    requires '&' !in s
    ensures UnescapeQuotes(EscapeQuotes(s)) == s
  {
    if s != [] {
      EscapeQuotesRoundTrip(s[1..]);
      if s[0] == '"' {
        UnescapeEntity(EscapeQuotes(s[1..]));
      } else {
        UnescapeOther(s[0], EscapeQuotes(s[1..]));
      }
    }
  }

  /**
   * Only '"' is escaped, so a description that itself holds the text
   * "&quot;" is shown as a single '"': the round trip needs the '&'-free
   * premise.
   */
  lemma EntityInDescriptionShowsAsQuote()
    ensures UnescapeQuotes(EscapeQuotes("&quot;")) == "\""
  {
    var e := "&quot;";
    assert '"' !in e;
    UnescapeEntity("");
    assert e + "" == e;
  }

  lemma UnescapeEntity(rest: string)
    ensures UnescapeQuotes("&quot;" + rest) == ['"'] + UnescapeQuotes(rest)
  {
    var e := "&quot;" + rest;
    assert e[..6] == "&quot;" && e[6..] == rest;
  }

  lemma UnescapeOther(c: char, rest: string)
    requires c != '&'
    ensures UnescapeQuotes([c] + rest) == [c] + UnescapeQuotes(rest)
  {
    var e := [c] + rest;
    assert e[0] == c && e[1..] == rest;
    if |e| >= 6 {
      assert e[..6][0] == c;
    }
  }

  /** A description is shown when it is present and not empty (JavaScript truthiness). */
  predicate IsTruthy(s: Option<string>) {
    s.Some? && s.value != ""
  }

  /** The recent card's safeDescription: the escaped text, or "" when there is none. */
  function SafeDescription(description: Option<string>): (r: string)
    ensures r == "" <==> !IsTruthy(description)
    ensures '"' !in r
  {
    if IsTruthy(description) then EscapeQuotes(description.value) else ""
  }

  /** The duration shown on a recent card: "(ongoing)" while the timer runs, else its formatted length. */
  function DurationLabel(entry: TimesheetEntry): (text: string)
    ensures text == Ongoing <==> entry.endMs.None?
    ensures entry.endMs.Some? ==> text == FormatDuration(entry.beginMs, entry.endMs.value)
  {
    match entry.endMs
    case None => Ongoing
    case Some(end) => FormatDuration(entry.beginMs, end)
  }
}
