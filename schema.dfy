/** The shared record shapes and fixed enumerations of the progress tracker.

    Columns that the database declares as plain `text` (progress level, metric
    category, goal status, relationship type) are `string` here: any string can
    be stored, and the enumerations below are not enforced by the store.

    Fields that carry a database default (`progressLevel`, `completed`,
    `status`, `progress`) are optional in the insert shapes. The in-memory
    store copies its input verbatim and never applies those defaults, so in
    memory these fields are `Option`s: `None` is a field that was never given.
    Nullable columns are `Option`s too, `None` standing for `null` or absent. */
module Schema {
  import opened Wrappers

  /** Ids are opaque strings; the store makes them with `randomUUID`. */
  type Id = string

  /** Timestamps (`Date` values) as milliseconds since the epoch. */
  type Timestamp = int

  const PROGRESS_LEVELS: seq<string> :=
    ["Bad", "Poor", "Average", "Good", "Great", "Excellent", "Elite", "Elite+", "Elite++"]

  const METRIC_CATEGORIES: seq<string> :=
    ["Education", "Fitness", "Finances", "Spirituality", "Career", "Relationships", "Health"]

  const RELATIONSHIP_TYPES: seq<string> :=
    ["Parent", "Child", "Spouse", "Sibling", "Grandparent", "Grandchild", "Extended Family"]

  /** The goal status that the analytics count as done. */
  const COMPLETED: string := "Completed"

  ghost predicate Distinct(s: seq<string>)
  {
    forall i, j :: 0 <= i < j < |s| ==> s[i] != s[j]
  }

  lemma {:induction false} EnumerationsAreDistinct()
    ensures |PROGRESS_LEVELS| == 9 && Distinct(PROGRESS_LEVELS)
    ensures |METRIC_CATEGORIES| == 7 && Distinct(METRIC_CATEGORIES)
    ensures |RELATIONSHIP_TYPES| == 7 && Distinct(RELATIONSHIP_TYPES)
  {
    // Every pair of names differs in its length or in its first letter.
    forall i, j | 0 <= i < j < 9 ensures PROGRESS_LEVELS[i] != PROGRESS_LEVELS[j] {
      var a, b := PROGRESS_LEVELS[i], PROGRESS_LEVELS[j];
      assert |a| != |b| || a[0] != b[0];
    }
    forall i, j | 0 <= i < j < 7 ensures METRIC_CATEGORIES[i] != METRIC_CATEGORIES[j] {
      var a, b := METRIC_CATEGORIES[i], METRIC_CATEGORIES[j];
      assert |a| != |b| || a[0] != b[0];
    }
    forall i, j | 0 <= i < j < 7 ensures RELATIONSHIP_TYPES[i] != RELATIONSHIP_TYPES[j] {
      var a, b := RELATIONSHIP_TYPES[i], RELATIONSHIP_TYPES[j];
      assert |a| != |b| || a[0] != b[0];
    }
  }

  datatype Person = Person(
    id: Id,
    name: string,
    age: int,
    gender: string,
    role: string,
    profession: Option<string>,
    location: Option<string>,
    progressLevel: Option<string>,
    avatar: Option<string>,
    createdAt: Timestamp)

  /** The insert shape omits `id` and `createdAt`: callers never choose them. */
  datatype InsertPerson = InsertPerson(
    name: string,
    age: int,
    gender: string,
    role: string,
    profession: Option<string>,
    location: Option<string>,
    progressLevel: Option<string>,
    avatar: Option<string>)

  /** `Partial<InsertPerson>`: `None` leaves a field alone; for a nullable field
      `Some(None)` sets it to `null`. */
  datatype PersonPatch = PersonPatch(
    name: Option<string>,
    age: Option<int>,
    gender: Option<string>,
    role: Option<string>,
    profession: Option<Option<string>>,
    location: Option<Option<string>>,
    progressLevel: Option<string>,
    avatar: Option<Option<string>>)

  datatype ProgressMetric = ProgressMetric(
    id: Id,
    personId: Id,
    category: string,
    value: real,
    date: Timestamp,
    notes: Option<string>)

  /** `date` is `None` when the caller gave a falsy date. */
  datatype InsertProgressMetric = InsertProgressMetric(
    personId: Id,
    category: string,
    value: real,
    date: Option<Timestamp>,
    notes: Option<string>)

  datatype Milestone = Milestone(
    id: Id,
    personId: Id,
    title: string,
    description: Option<string>,
    date: Timestamp,
    completed: Option<bool>)

  datatype InsertMilestone = InsertMilestone(
    personId: Id,
    title: string,
    description: Option<string>,
    date: Timestamp,
    completed: Option<bool>)

  datatype MilestonePatch = MilestonePatch(
    personId: Option<Id>,
    title: Option<string>,
    description: Option<Option<string>>,
    date: Option<Timestamp>,
    completed: Option<bool>)

  datatype Goal = Goal(
    id: Id,
    personId: Id,
    title: string,
    description: Option<string>,
    targetDate: Timestamp,
    category: string,
    status: Option<string>,
    progress: Option<int>)

  datatype InsertGoal = InsertGoal(
    personId: Id,
    title: string,
    description: Option<string>,
    targetDate: Timestamp,
    category: string,
    status: Option<string>,
    progress: Option<int>)

  datatype GoalPatch = GoalPatch(
    personId: Option<Id>,
    title: Option<string>,
    description: Option<Option<string>>,
    targetDate: Option<Timestamp>,
    category: Option<string>,
    status: Option<string>,
    progress: Option<int>)

  datatype FamilyRelationship = FamilyRelationship(
    id: Id,
    personId: Id,
    relatedPersonId: Id,
    relationshipType: string)

  datatype InsertFamilyRelationship = InsertFamilyRelationship(
    personId: Id,
    relatedPersonId: Id,
    relationshipType: string)

  /** The three trend labels of an insight; no other value is possible. */
  datatype Trend = Improving | Stable | Declining

  datatype InsightData = InsightData(
    personId: Id,
    progressVelocity: real,
    trend: Trend,
    completionRate: real,
    recommendations: seq<string>,
    achievements: nat,
    comparisonToFamily: real)

  datatype FamilyStats = FamilyStats(
    totalMembers: nat,
    averageProgressLevel: real,
    totalGoalsCompleted: nat,
    totalMilestones: nat,
    categoryAverages: map<string, real>)
}
