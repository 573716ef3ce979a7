/** The in-memory store: five keyed collections (people, progress metrics,
    milestones, goals, family relationships) with create, read, merge-update
    and delete, the per-person filters, and the two analytics entry points.

    Every method of the TypeScript store is asynchronous but completes without
    waiting on anything, so each is a plain method or function here. The fresh
    id that `randomUUID` would produce and the current time are parameters:
    the caller supplies an id that the collection does not hold yet. */
module Storage {
  import opened Wrappers
  import opened Schema
  import opened JsMaps
  import opened Lists
  import opened Analytics

  const PERSON_NOT_FOUND: string := "Person not found"

  // ---------------------------------------------------------------------------
  // Building records: `{ ...input, id }` and `{ ...old, ...patch }`

  /** `{ ...insertPerson, id, createdAt: new Date() }` */
  function NewPerson(input: InsertPerson, id: Id, now: Timestamp): (p: Person)
    ensures p.id == id && p.createdAt == now && PersonInput(p) == input
  {
    Person(id, input.name, input.age, input.gender, input.role, input.profession,
           input.location, input.progressLevel, input.avatar, now)
  }

  /** The fields of a person that a caller supplies (all but `id` and `createdAt`). */
  function PersonInput(p: Person): InsertPerson
  {
    InsertPerson(p.name, p.age, p.gender, p.role, p.profession, p.location, p.progressLevel, p.avatar)
  }

  /** A field after a spread of `patch`: the patched value when the patch
      carries the field, the stored one otherwise. */
  predicate Patched<T(==)>(patch: Option<T>, stored: T, merged: T)
  {
    if patch.Some? then merged == patch.value else merged == stored
  }

  /** As `Patched`, for a field that may itself be unset: a patch that carries
      it can set it but not unset it. */
  predicate PatchedOptional<T(==)>(patch: Option<T>, stored: Option<T>, merged: Option<T>)
  {
    if patch.Some? then merged == patch else merged == stored
  }

  /** `{ ...person, ...updates }`: every field the patch carries overwrites the
      stored one and every other field is kept; `id` and `createdAt` cannot be
      patched. */
  function MergePerson(p: Person, patch: PersonPatch): (r: Person)
    ensures r.id == p.id && r.createdAt == p.createdAt
    ensures Patched(patch.name, p.name, r.name) && Patched(patch.age, p.age, r.age)
    ensures Patched(patch.gender, p.gender, r.gender) && Patched(patch.role, p.role, r.role)
    ensures Patched(patch.profession, p.profession, r.profession)
    ensures Patched(patch.location, p.location, r.location) && Patched(patch.avatar, p.avatar, r.avatar)
    ensures PatchedOptional(patch.progressLevel, p.progressLevel, r.progressLevel)
  {
    Person(p.id, patch.name.GetOr(p.name), patch.age.GetOr(p.age), patch.gender.GetOr(p.gender),
           patch.role.GetOr(p.role), patch.profession.GetOr(p.profession),
           patch.location.GetOr(p.location), patch.progressLevel.Or(p.progressLevel),
           patch.avatar.GetOr(p.avatar), p.createdAt)
  }

  const EMPTY_PERSON_PATCH: PersonPatch := PersonPatch(None, None, None, None, None, None, None, None)

  /** `{ ...insertMetric, id, date: insertMetric.date || new Date() }` */
  function NewMetric(input: InsertProgressMetric, id: Id, now: Timestamp): (m: ProgressMetric)
    ensures m.id == id && m.personId == input.personId && m.category == input.category
    ensures m.value == input.value && m.notes == input.notes
    ensures input.date.Some? ==> m.date == input.date.value
    ensures input.date.None? ==> m.date == now
  {
    ProgressMetric(id, input.personId, input.category, input.value, input.date.GetOr(now), input.notes)
  }

  /** `{ ...insertMilestone, id }` */
  function NewMilestone(input: InsertMilestone, id: Id): (m: Milestone)
    ensures m.id == id && MilestoneInput(m) == input
  {
    Milestone(id, input.personId, input.title, input.description, input.date, input.completed)
  }

  function MilestoneInput(m: Milestone): InsertMilestone
  {
    InsertMilestone(m.personId, m.title, m.description, m.date, m.completed)
  }

  /** `{ ...milestone, ...updates }`: the id is kept and every other field is
      the patched one or the stored one. */
  function MergeMilestone(m: Milestone, patch: MilestonePatch): (r: Milestone)
    ensures r.id == m.id
    ensures Patched(patch.personId, m.personId, r.personId) && Patched(patch.title, m.title, r.title)
    ensures Patched(patch.description, m.description, r.description) && Patched(patch.date, m.date, r.date)
    ensures PatchedOptional(patch.completed, m.completed, r.completed)
  {
    Milestone(m.id, patch.personId.GetOr(m.personId), patch.title.GetOr(m.title),
              patch.description.GetOr(m.description), patch.date.GetOr(m.date),
              patch.completed.Or(m.completed))
  }

  const EMPTY_MILESTONE_PATCH: MilestonePatch := MilestonePatch(None, None, None, None, None)

  /** `{ ...insertGoal, id }` */
  function NewGoal(input: InsertGoal, id: Id): (g: Goal)
    ensures g.id == id && GoalInput(g) == input
  {
    Goal(id, input.personId, input.title, input.description, input.targetDate, input.category,
         input.status, input.progress)
  }

  function GoalInput(g: Goal): InsertGoal
  {
    InsertGoal(g.personId, g.title, g.description, g.targetDate, g.category, g.status, g.progress)
  }

  /** `{ ...goal, ...updates }`: the id is kept and every other field is the
      patched one or the stored one. */
  function MergeGoal(g: Goal, patch: GoalPatch): (r: Goal)
    ensures r.id == g.id
    ensures Patched(patch.personId, g.personId, r.personId) && Patched(patch.title, g.title, r.title)
    ensures Patched(patch.description, g.description, r.description)
    ensures Patched(patch.targetDate, g.targetDate, r.targetDate) && Patched(patch.category, g.category, r.category)
    ensures PatchedOptional(patch.status, g.status, r.status)
    ensures PatchedOptional(patch.progress, g.progress, r.progress)
  {
    Goal(g.id, patch.personId.GetOr(g.personId), patch.title.GetOr(g.title),
         patch.description.GetOr(g.description), patch.targetDate.GetOr(g.targetDate),
         patch.category.GetOr(g.category), patch.status.Or(g.status),
         patch.progress.Or(g.progress))
  }

  const EMPTY_GOAL_PATCH: GoalPatch := GoalPatch(None, None, None, None, None, None, None)

  /** `{ ...insertRelationship, id }` */
  function NewRelationship(input: InsertFamilyRelationship, id: Id): (r: FamilyRelationship)
    ensures r.id == id && r.personId == input.personId
    ensures r.relatedPersonId == input.relatedPersonId && r.relationshipType == input.relationshipType
  {
    FamilyRelationship(id, input.personId, input.relatedPersonId, input.relationshipType)
  }

  /** An empty patch changes nothing, and applying the same patch twice is the
      same as applying it once. */
  lemma MergeLaws(p: Person, m: Milestone, g: Goal, pp: PersonPatch, mp: MilestonePatch, gp: GoalPatch)
    ensures MergePerson(p, EMPTY_PERSON_PATCH) == p
    ensures MergeMilestone(m, EMPTY_MILESTONE_PATCH) == m
    ensures MergeGoal(g, EMPTY_GOAL_PATCH) == g
    ensures MergePerson(MergePerson(p, pp), pp) == MergePerson(p, pp)
    ensures MergeMilestone(MergeMilestone(m, mp), mp) == MergeMilestone(m, mp)
    ensures MergeGoal(MergeGoal(g, gp), gp) == MergeGoal(g, gp)
  {
  }

  // ---------------------------------------------------------------------------
  // The per-person filters

  function MetricOf(personId: Id): ProgressMetric -> bool
  {
    (m: ProgressMetric) => m.personId == personId
  }

  function MilestoneOf(personId: Id): Milestone -> bool
  {
    (m: Milestone) => m.personId == personId
  }

  function GoalOf(personId: Id): Goal -> bool
  {
    (g: Goal) => g.personId == personId
  }

  /** A relationship concerns a person at either of its two ends. */
  function Involves(personId: Id): FamilyRelationship -> bool
  {
    (r: FamilyRelationship) => r.personId == personId || r.relatedPersonId == personId
  }

  // ---------------------------------------------------------------------------
  // The store

  class MemStorage {
    var people: OrderedMap<Id, Person>
    var metrics: OrderedMap<Id, ProgressMetric>
    var milestones: OrderedMap<Id, Milestone>
    var goals: OrderedMap<Id, Goal>
    var relationships: OrderedMap<Id, FamilyRelationship>

    /** Each collection is a well-formed map, and every record is stored under its own id. */
    ghost predicate Valid()
      reads this
    {
      && people.Valid() && metrics.Valid() && milestones.Valid() && goals.Valid() && relationships.Valid()
      && (forall k :: k in people.entries ==> people.entries[k].id == k)
      && (forall k :: k in metrics.entries ==> metrics.entries[k].id == k)
      && (forall k :: k in milestones.entries ==> milestones.entries[k].id == k)
      && (forall k :: k in goals.entries ==> goals.entries[k].id == k)
      && (forall k :: k in relationships.entries ==> relationships.entries[k].id == k)
    }

    constructor ()
      ensures Valid()
      ensures people.entries == map[] && metrics.entries == map[] && milestones.entries == map[]
      ensures goals.entries == map[] && relationships.entries == map[]
    {
      people := Empty();
      metrics := Empty();
      milestones := Empty();
      goals := Empty();
      relationships := Empty();
    }

    // People

    /** Everyone, in the order they were created. */
    function GetPeople(): (r: seq<Person>)
      reads this
      requires Valid()
      ensures |r| == |people.keys|
      ensures forall i :: 0 <= i < |r| ==> r[i] == people.entries[people.keys[i]]
    {
      people.Values()
    }

    function GetPerson(id: Id): (r: Option<Person>)
      reads this
      ensures r.Some? <==> id in people.entries
      ensures r.Some? ==> r.value == people.entries[id]
    {
      people.Get(id)
    }

    method CreatePerson(input: InsertPerson, id: Id, now: Timestamp) returns (p: Person)
      requires Valid() && id !in people.entries
      modifies this`people
      ensures Valid()
      ensures p.id == id && p.createdAt == now && PersonInput(p) == input
      ensures people.entries == old(people.entries)[id := p]
      ensures GetPeople() == old(GetPeople()) + [p]
    {
      p := NewPerson(input, id, now);
      SetNewValues(people, id, p);
      people := people.Set(id, p);
    }

    method UpdatePerson(id: Id, updates: PersonPatch) returns (r: Option<Person>)
      requires Valid()
      modifies this`people
      ensures Valid()
      ensures id !in old(people.entries) ==> r == None && people == old(people)
      ensures id in old(people.entries) ==>
        && r == Some(MergePerson(old(people.entries[id]), updates))
        && people.entries == old(people.entries)[id := r.value]
        && people.keys == old(people.keys)
      ensures id in old(people.entries) ==> var i := IndexOf(old(people.keys), id);
        0 <= i && GetPeople() == old(GetPeople())[i := r.value]
    {
      var person := people.Get(id);
      if person.None? {
        return None;
      }
      var updated := MergePerson(person.value, updates);
      SetExistingValues(people, id, updated);
      people := people.Set(id, updated);
      return Some(updated);
    }

    /** Deleting a person does not cascade: their metrics, milestones, goals and
        relationships stay where they are. */
    method DeletePerson(id: Id) returns (deleted: bool)
      requires Valid()
      modifies this`people
      ensures Valid()
      ensures deleted <==> id in old(people.entries)
      ensures people.entries == old(people.entries) - {id}
      ensures !deleted ==> people == old(people)
      ensures deleted ==> var i := IndexOf(old(people.keys), id);
        0 <= i && GetPeople() == old(GetPeople())[..i] + old(GetPeople())[i + 1..]
      ensures GetPersonMetrics(id) == old(GetPersonMetrics(id))
      ensures GetPersonMilestones(id) == old(GetPersonMilestones(id))
      ensures GetPersonGoals(id) == old(GetPersonGoals(id))
      ensures GetPersonRelationships(id) == old(GetPersonRelationships(id))
    {
      if id in people.entries {
        DeleteValues(people, id);
      }
      var res := people.Delete(id);
      people := res.0;
      deleted := res.1;
      assert GetAllMetrics() == old(GetAllMetrics()) && GetAllMilestones() == old(GetAllMilestones());
      assert GetGoals() == old(GetGoals()) && GetRelationships() == old(GetRelationships());
    }

    // Progress metrics

    function GetAllMetrics(): (r: seq<ProgressMetric>)
      reads this
      requires Valid()
      ensures |r| == |metrics.keys|
      ensures forall i :: 0 <= i < |r| ==> r[i] == metrics.entries[metrics.keys[i]]
    {
      metrics.Values()
    }

    /** The person's metrics, in the order they were recorded. */
    function GetPersonMetrics(personId: Id): (r: seq<ProgressMetric>)
      reads this
      requires Valid()
      ensures IsSubsequence(r, GetAllMetrics())
      ensures forall m :: m in r <==> m in GetAllMetrics() && m.personId == personId
    {
      FilterIsSubsequence(GetAllMetrics(), MetricOf(personId));
      Filter(GetAllMetrics(), MetricOf(personId))
    }

    method CreateMetric(input: InsertProgressMetric, id: Id, now: Timestamp) returns (m: ProgressMetric)
      requires Valid() && id !in metrics.entries
      modifies this`metrics
      ensures Valid()
      ensures m == NewMetric(input, id, now)
      ensures metrics.entries == old(metrics.entries)[id := m]
      ensures GetAllMetrics() == old(GetAllMetrics()) + [m]
    {
      m := NewMetric(input, id, now);
      SetNewValues(metrics, id, m);
      metrics := metrics.Set(id, m);
    }

    // Milestones

    function GetAllMilestones(): (r: seq<Milestone>)
      reads this
      requires Valid()
      ensures |r| == |milestones.keys|
      ensures forall i :: 0 <= i < |r| ==> r[i] == milestones.entries[milestones.keys[i]]
    {
      milestones.Values()
    }

    function GetPersonMilestones(personId: Id): (r: seq<Milestone>)
      reads this
      requires Valid()
      ensures IsSubsequence(r, GetAllMilestones())
      ensures forall m :: m in r <==> m in GetAllMilestones() && m.personId == personId
    {
      FilterIsSubsequence(GetAllMilestones(), MilestoneOf(personId));
      Filter(GetAllMilestones(), MilestoneOf(personId))
    }

    method CreateMilestone(input: InsertMilestone, id: Id) returns (m: Milestone)
      requires Valid() && id !in milestones.entries
      modifies this`milestones
      ensures Valid()
      ensures m.id == id && MilestoneInput(m) == input
      ensures milestones.entries == old(milestones.entries)[id := m]
      ensures GetAllMilestones() == old(GetAllMilestones()) + [m]
    {
      m := NewMilestone(input, id);
      SetNewValues(milestones, id, m);
      milestones := milestones.Set(id, m);
    }

    method UpdateMilestone(id: Id, updates: MilestonePatch) returns (r: Option<Milestone>)
      requires Valid()
      modifies this`milestones
      ensures Valid()
      ensures id !in old(milestones.entries) ==> r == None && milestones == old(milestones)
      ensures id in old(milestones.entries) ==>
        && r == Some(MergeMilestone(old(milestones.entries[id]), updates))
        && milestones.entries == old(milestones.entries)[id := r.value]
        && milestones.keys == old(milestones.keys)
      ensures id in old(milestones.entries) ==> var i := IndexOf(old(milestones.keys), id);
        0 <= i && GetAllMilestones() == old(GetAllMilestones())[i := r.value]
    {
      var milestone := milestones.Get(id);
      if milestone.None? {
        return None;
      }
      var updated := MergeMilestone(milestone.value, updates);
      SetExistingValues(milestones, id, updated);
      milestones := milestones.Set(id, updated);
      return Some(updated);
    }

    // Goals

    function GetGoals(): (r: seq<Goal>)
      reads this
      requires Valid()
      ensures |r| == |goals.keys|
      ensures forall i :: 0 <= i < |r| ==> r[i] == goals.entries[goals.keys[i]]
    {
      goals.Values()
    }

    function GetPersonGoals(personId: Id): (r: seq<Goal>)
      reads this
      requires Valid()
      ensures IsSubsequence(r, GetGoals())
      ensures forall g :: g in r <==> g in GetGoals() && g.personId == personId
    {
      FilterIsSubsequence(GetGoals(), GoalOf(personId));
      Filter(GetGoals(), GoalOf(personId))
    }

    method CreateGoal(input: InsertGoal, id: Id) returns (g: Goal)
      requires Valid() && id !in goals.entries
      modifies this`goals
      ensures Valid()
      ensures g.id == id && GoalInput(g) == input
      ensures goals.entries == old(goals.entries)[id := g]
      ensures GetGoals() == old(GetGoals()) + [g]
    {
      g := NewGoal(input, id);
      SetNewValues(goals, id, g);
      goals := goals.Set(id, g);
    }

    method UpdateGoal(id: Id, updates: GoalPatch) returns (r: Option<Goal>)
      requires Valid()
      modifies this`goals
      ensures Valid()
      ensures id !in old(goals.entries) ==> r == None && goals == old(goals)
      ensures id in old(goals.entries) ==>
        && r == Some(MergeGoal(old(goals.entries[id]), updates))
        && goals.entries == old(goals.entries)[id := r.value]
        && goals.keys == old(goals.keys)
      ensures id in old(goals.entries) ==> var i := IndexOf(old(goals.keys), id);
        0 <= i && GetGoals() == old(GetGoals())[i := r.value]
    {
      var goal := goals.Get(id);
      if goal.None? {
        return None;
      }
      var updated := MergeGoal(goal.value, updates);
      SetExistingValues(goals, id, updated);
      goals := goals.Set(id, updated);
      return Some(updated);
    }

    method DeleteGoal(id: Id) returns (deleted: bool)
      requires Valid()
      modifies this`goals
      ensures Valid()
      ensures deleted <==> id in old(goals.entries)
      ensures goals.entries == old(goals.entries) - {id}
      ensures !deleted ==> goals == old(goals)
      ensures deleted ==> var i := IndexOf(old(goals.keys), id);
        0 <= i && GetGoals() == old(GetGoals())[..i] + old(GetGoals())[i + 1..]
    {
      if id in goals.entries {
        DeleteValues(goals, id);
      }
      var res := goals.Delete(id);
      goals := res.0;
      deleted := res.1;
    }

    // Family relationships

    function GetRelationships(): (r: seq<FamilyRelationship>)
      reads this
      requires Valid()
      ensures |r| == |relationships.keys|
      ensures forall i :: 0 <= i < |r| ==> r[i] == relationships.entries[relationships.keys[i]]
    {
      relationships.Values()
    }

    /** The relationships that have the person at either end. */
    function GetPersonRelationships(personId: Id): (r: seq<FamilyRelationship>)
      reads this
      requires Valid()
      ensures IsSubsequence(r, GetRelationships())
      ensures forall x :: x in r <==>
        x in GetRelationships() && (x.personId == personId || x.relatedPersonId == personId)
    {
      FilterIsSubsequence(GetRelationships(), Involves(personId));
      Filter(GetRelationships(), Involves(personId))
    }

    method CreateRelationship(input: InsertFamilyRelationship, id: Id) returns (r: FamilyRelationship)
      requires Valid() && id !in relationships.entries
      modifies this`relationships
      ensures Valid()
      ensures r == NewRelationship(input, id)
      ensures relationships.entries == old(relationships.entries)[id := r]
      ensures GetRelationships() == old(GetRelationships()) + [r]
    {
      r := NewRelationship(input, id);
      SetNewValues(relationships, id, r);
      relationships := relationships.Set(id, r);
    }

    method DeleteRelationship(id: Id) returns (deleted: bool)
      requires Valid()
      modifies this`relationships
      ensures Valid()
      ensures deleted <==> id in old(relationships.entries)
      ensures relationships.entries == old(relationships.entries) - {id}
      ensures !deleted ==> relationships == old(relationships)
      ensures deleted ==> var i := IndexOf(old(relationships.keys), id);
        0 <= i && GetRelationships() == old(GetRelationships())[..i] + old(GetRelationships())[i + 1..]
    {
      if id in relationships.entries {
        DeleteValues(relationships, id);
      }
      var res := relationships.Delete(id);
      relationships := res.0;
      deleted := res.1;
    }

    /** Every listing holds each record once: no two positions carry the same
        id, so a per-person filter is exactly that person's records in
        insertion order. */
    lemma ListingsHaveDistinctIds()
      requires Valid()
      ensures forall i, j :: 0 <= i < j < |GetPeople()| ==> GetPeople()[i].id != GetPeople()[j].id
      ensures forall i, j :: 0 <= i < j < |GetAllMetrics()| ==> GetAllMetrics()[i].id != GetAllMetrics()[j].id
      ensures forall i, j :: 0 <= i < j < |GetAllMilestones()| ==>
        GetAllMilestones()[i].id != GetAllMilestones()[j].id
      ensures forall i, j :: 0 <= i < j < |GetGoals()| ==> GetGoals()[i].id != GetGoals()[j].id
      ensures forall i, j :: 0 <= i < j < |GetRelationships()| ==>
        GetRelationships()[i].id != GetRelationships()[j].id
    {
    }

    // Analytics

    /** The insight for one person, or the "Person not found" error. It reads
        the store and changes nothing; the sort works on the filtered copy. */
    function GetPersonInsights(personId: Id): (r: Result<InsightData, string>)
      reads this
      requires Valid()
      ensures r.Failure? <==> personId !in people.entries
      ensures r.Failure? ==> r.error == PERSON_NOT_FOUND
      ensures r.Success? ==> r.value.personId == personId
      ensures r.Success? ==> r.value == Insights(people.entries[personId], GetPersonMetrics(personId),
        GetPersonGoals(personId), GetPersonMilestones(personId), GetPeople())
    {
      match people.Get(personId)
      case None => Failure(PERSON_NOT_FOUND)
      case Some(person) =>
        Success(Insights(person, GetPersonMetrics(personId), GetPersonGoals(personId),
                         GetPersonMilestones(personId), GetPeople()))
    }

    /** The family-wide statistics over everything in the store. */
    method GetFamilyStats() returns (stats: FamilyStats)
      requires Valid()
      ensures stats.totalMembers == |GetPeople()|
      ensures stats.averageProgressLevel == MeanRank(GetPeople())
      ensures -1.0 <= stats.averageProgressLevel <= 8.0
      ensures stats.totalGoalsCompleted == Count(GetGoals(), IsCompletedGoal)
      ensures stats.totalMilestones == Count(GetAllMilestones(), IsAchieved)
      ensures forall c :: c in stats.categoryAverages <==>
        c in METRIC_CATEGORIES && Filter(GetAllMetrics(), HasCategory(c)) != []
      ensures forall c :: c in stats.categoryAverages ==>
        Filter(GetAllMetrics(), HasCategory(c)) != [] &&
        stats.categoryAverages[c] == MeanValue(Filter(GetAllMetrics(), HasCategory(c)))
    {
      var allPeople := GetPeople();
      var allGoals := GetGoals();
      var allMilestones := GetAllMilestones();
      var allMetrics := GetAllMetrics();
      var categoryAverages := CategoryAverages(allMetrics);
      stats := FamilyStats(|allPeople|, MeanRank(allPeople), Count(allGoals, IsCompletedGoal),
                           Count(allMilestones, IsAchieved), categoryAverages);
    }
  }
}
