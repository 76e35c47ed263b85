/**
 * The projectsByCustomer table of the panel: for every customer id, the
 * projects of that customer; and the order in which the panel's script
 * lists all of its values.
 */
module CustomerTable {
  import opened KimaiTypes
  import opened JsArray

  function OfCustomer(customerId: nat): Project -> bool {
    (p: Project) => p.customer == customerId
  }

  /** projects.filter(p => p.customer === customerId). */
  function ProjectsOf(projects: seq<Project>, customerId: nat): (r: seq<Project>)
    ensures forall i | 0 <= i < |r| :: r[i].customer == customerId
    ensures forall p :: p in r <==> p in projects && p.customer == customerId
  {
    Filter(projects, OfCustomer(customerId))
  }

  /** A customer's list holds each of its projects exactly as often as the project list does. */
  lemma ProjectsOfCount(projects: seq<Project>, customerId: nat, p: Project)
    ensures multiset(ProjectsOf(projects, customerId))[p]
            == if p.customer == customerId then multiset(projects)[p] else 0
  {
    FilterCount(projects, OfCustomer(customerId), p);
  }

  /** The customer list of a customer's table entry keeps the projects' original order. */
  lemma ProjectsOfAppend(a: seq<Project>, b: seq<Project>, customerId: nat)
    ensures ProjectsOf(a + b, customerId) == ProjectsOf(a, customerId) + ProjectsOf(b, customerId)
  {
    FilterAppend(a, b, OfCustomer(customerId));
  }

  function CustomerIds(customers: seq<Customer>): set<nat> {
    set c | c in customers :: c.id
  }

  /** What the table is: one key per customer id, holding that customer's projects. */
  function ProjectsByCustomer(customers: seq<Customer>, projects: seq<Project>): (table: map<nat, seq<Project>>)
    ensures table.Keys == CustomerIds(customers)
  {
    map id | id in CustomerIds(customers) :: ProjectsOf(projects, id)
  }

  /**
   * customers.reduce((acc, customer) => { acc[customer.id] = ...; return acc }, {}):
   * the table built one customer at a time; a repeated id overwrites its key
   * with the same list.
   */
  method BuildProjectsByCustomer(customers: seq<Customer>, projects: seq<Project>)
    returns (table: map<nat, seq<Project>>)
    ensures table.Keys == CustomerIds(customers)
    ensures forall id | id in table :: table[id] == ProjectsOf(projects, id)
    ensures table == ProjectsByCustomer(customers, projects)
  {
    table := map[];
    var i := 0;
    while i < |customers|
      invariant 0 <= i <= |customers|
      invariant table.Keys == CustomerIds(customers[..i])
      invariant forall id | id in table :: table[id] == ProjectsOf(projects, id)
    {
      var customer := customers[i];
      table := table[customer.id := ProjectsOf(projects, customer.id)];
      assert customers[..i + 1] == customers[..i] + [customer];
      i := i + 1;
    }
    assert customers[..i] == customers;
  }

  predicate IsLeast(k: nat, keys: set<nat>) {
    k in keys && forall j | j in keys :: k <= j
  }

  lemma LeastKeyExists(keys: set<nat>)
    requires keys != {}
    ensures exists k :: IsLeast(k, keys)
  {
    var k := LeastKey(keys);
    assert IsLeast(k, keys);
  }

  /** Every non-empty finite set of ids has a least element. */
  lemma LeastKey(keys: set<nat>) returns (least: nat)
    requires keys != {}
    ensures IsLeast(least, keys)
  {
    var x :| x in keys;
    if keys == {x} {
      least := x;
    } else {
      var k := LeastKey(keys - {x});
      least := if x < k then x else k;
      forall j | j in keys ensures least <= j {
        if j != x {
          assert j in keys - {x};
        }
      }
    }
  }

  /**
   * The keys of an object whose keys are all array indices, in the order
   * Object.values visits them: ascending.
   */
  function SortedKeys(keys: set<nat>): (r: seq<nat>)
    ensures forall i, j | 0 <= i < j < |r| :: r[i] < r[j]
    ensures forall k :: k in r <==> k in keys
    decreases keys
  {
    if keys == {} then []
    else
      LeastKeyExists(keys);
      var k :| IsLeast(k, keys);
      [k] + SortedKeys(keys - {k})
  }

  /** The lists of the given keys, one after another. */
  function ValuesOf(table: map<nat, seq<Project>>, keys: seq<nat>): (r: seq<Project>)
    requires forall k | k in keys :: k in table
    ensures forall p | p in r :: exists k | k in keys :: p in table[k]
  {
    if keys == [] then [] else table[keys[0]] + ValuesOf(table, keys[1..])
  }

  /** Object.values(projectsByCustomer).flat(): every list, in ascending order of customer id. */
  function AllProjects(table: map<nat, seq<Project>>): (r: seq<Project>)
    ensures forall p | p in r :: exists k | k in table :: p in table[k]
  {
    ValuesOf(table, SortedKeys(table.Keys))
  }

  /**
   * Over distinct keys whose lists are the projects of that customer, the
   * lists together hold each project exactly as often as the projects do
   * when its customer is one of the keys, and not at all otherwise.
   */
  lemma {:induction false} ValuesOfCount(table: map<nat, seq<Project>>, keys: seq<nat>, projects: seq<Project>, p: Project)
    requires forall k | k in keys :: k in table && table[k] == ProjectsOf(projects, k)
    requires forall i, j | 0 <= i < j < |keys| :: keys[i] != keys[j]
    ensures multiset(ValuesOf(table, keys))[p] == if p.customer in keys then multiset(projects)[p] else 0
  {
    if keys != [] {
      ValuesOfCount(table, keys[1..], projects, p);
      ProjectsOfCount(projects, keys[0], p);
      assert keys[0] !in keys[1..] by {
        forall j | 0 <= j < |keys[1..]| ensures keys[1..][j] != keys[0] {
          assert keys[1..][j] == keys[j + 1];
        }
      }
      assert p.customer in keys <==> p.customer == keys[0] || p.customer in keys[1..];
    }
  }

  /**
   * With no client selected, the script lists each project exactly as
   * often as the project list holds it when its customer is a known
   * customer, and never lists a project of an unknown customer.
   */
  lemma AllProjectsCount(customers: seq<Customer>, projects: seq<Project>, p: Project)
    ensures multiset(AllProjects(ProjectsByCustomer(customers, projects)))[p]
            == if p.customer in CustomerIds(customers) then multiset(projects)[p] else 0
  {
    var table := ProjectsByCustomer(customers, projects);
    var keys := SortedKeys(table.Keys);
    ValuesOfCount(table, keys, projects, p);
  }

  lemma AllProjectsMembers(customers: seq<Customer>, projects: seq<Project>)
    ensures forall p :: p in AllProjects(ProjectsByCustomer(customers, projects))
                        <==> p in projects && p.customer in CustomerIds(customers)
  {
    forall p ensures p in AllProjects(ProjectsByCustomer(customers, projects))
                     <==> p in projects && p.customer in CustomerIds(customers) {
      AllProjectsCount(customers, projects, p);
    }
  }

  /** Whether a project's customer is one of the given customer ids. */
  function OfKnownCustomer(ids: set<nat>): Project -> bool {
    (p: Project) => p.customer in ids
  }

  /** The no-client list is exactly as long as the projects of known customers. */
  lemma AllProjectsLength(customers: seq<Customer>, projects: seq<Project>)
    ensures |AllProjects(ProjectsByCustomer(customers, projects))|
            == |Filter(projects, OfKnownCustomer(CustomerIds(customers)))|
  {
    var all := AllProjects(ProjectsByCustomer(customers, projects));
    var known := Filter(projects, OfKnownCustomer(CustomerIds(customers)));
    forall p ensures multiset(all)[p] == multiset(known)[p] {
      AllProjectsCount(customers, projects, p);
      FilterCount(projects, OfKnownCustomer(CustomerIds(customers)), p);
    }
    assert multiset(all) == multiset(known);
    assert |all| == |multiset(all)| == |multiset(known)| == |known|;
  }
}
