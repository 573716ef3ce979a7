# Family progress tracker: store, analytics and surname utilities in Dafny

This project models the non-visual core of a family progress tracker and proves
properties of that model. The tracker keeps people and their progress metrics,
milestones, goals and family relationships. It computes a per-person insight and
family-wide statistics, and it groups people by surname to suggest relatives who
are not yet linked.

What is modelled:

- **`Storage.MemStorage`** (`storage.dfy`): the in-memory store. It is a class
  with five insertion-ordered maps, which model JavaScript `Map`s (`JsMaps.OrderedMap`,
  `js_map.dfy`). The class has create, read, merge-update and delete, the
  per-person filters, `GetPersonInsights` and `GetFamilyStats`.
- **`Analytics`** (`analytics.dfy`): the arithmetic behind the insight and the
  statistics. It covers the stable newest-first sort and the ten-metric window,
  progress velocity, trend, completion rate and achievements. It also covers
  rank means, the standing in the family, recommendations and category averages.
- **`FamilyUtils`** (`family_utils.dfy`): last-name extraction (`trim`, then
  `split(/\s+/)`, then the last piece), grouping by last name, the symmetric
  connection test, the search for surname groups that still hold an unlinked
  pair, and suggested connections.
- **`ProgressBadge`** (`progress_badge.dfy`): level rank, percentage and the
  colour fallback.
- **`Schema`** (`schema.dfy`): the enumerations and the record shapes.
  `Lists` (`lists.dfy`) holds `filter`, `indexOf`, `slice` and counting.
  `Wrappers` holds `Option` and `Result`.

Modelling choices:

- Every store method completes without waiting, so each async method is a plain
  method or function.
- `randomUUID()` becomes an `id` parameter. The caller must supply an id that the
  collection does not hold yet.
- `new Date()` becomes a `now: Timestamp` parameter, an integer count of milliseconds.
- Numbers are exact `real`s.
- Fields that the database would default are `Option`s: `progressLevel`,
  `completed`, `status` and `progress`. The in-memory store copies input verbatim
  and never applies those defaults.
- In an update patch, `None` leaves a field alone. For a nullable field,
  `Some(None)` sets it to `null`.

## Model

| member | source | states |
|---|---|---|
| Schema.EnumerationsAreDistinct | shared/schema.ts:7-37 | There are 9 distinct progress levels, 7 distinct metric categories and 7 distinct relationship types, in the declared order. |
| ProgressBadge.LevelIndex | client/src/components/progress-badge.tsx:35-37 | The index is -1 exactly for an unlisted string. Otherwise it lies in 0..8 and names the position of the level. |
| ProgressBadge.IndexOfListed | client/src/components/progress-badge.tsx:35-37 | The i-th listed level has index i. |
| ProgressBadge.PercentageOfListed | client/src/components/progress-badge.tsx:39-42 | The i-th level shows (i+1)·100/9 percent, which lies in (0, 100]. |
| ProgressBadge.Percentage | client/src/components/progress-badge.tsx:39-42 | An unlisted level shows 0 percent, and a listed one shows more than 0 and at most 100. |
| ProgressBadge.PercentageExamples | client/src/components/progress-badge.tsx:39-42 | "Bad" shows 100/9 and "Elite++" shows 100. |
| ProgressBadge.PercentageIncreasing | client/src/components/progress-badge.tsx:39-42 | The percentage strictly increases along the level order. |
| ProgressBadge.LevelColor | client/src/components/progress-badge.tsx:4-22 | A level with its own entry gets that colour. Any other string gets the colour of "Average". |
| ProgressBadge.ColorsCoverExactlyTheLevels | client/src/components/progress-badge.tsx:4-14 | The colour table has an entry exactly for the listed levels, so an unlisted level is drawn like "Average". |
| Lists.Filter | server/storage.ts:109-111 | `filter` keeps exactly the elements that pass the test and never grows the list. |
| Lists.IndexOf | client/src/components/progress-badge.tsx:35-37 | `indexOf` gives the first position of the element, or -1 exactly when it is absent. |
| Lists.Take | server/storage.ts:222-224 | `slice(0, n)` gives a prefix of length min(n, length). |
| Lists.Count | server/storage.ts:236 | A count of passing elements is at most the length. It is 0 exactly when none passes and the full length exactly when all pass. |
| Lists.FilterIsSubsequence | server/storage.ts:109-111 | A filtered list keeps the original order: it is a subsequence of its input. |
| Lists.FilterAppend | client/src/lib/family-utils.ts:17-23 | Filtering distributes over concatenation. |
| JsMaps.OrderedMap.Set | server/storage.ts:87 | `Map.set` keeps the key order for an existing key, appends a new key at the end, and replaces only that entry. |
| JsMaps.OrderedMap.Get | server/storage.ts:77 | `Map.get` finds a value exactly when the key is present, and that value is the entry's. |
| JsMaps.OrderedMap.Values | server/storage.ts:73 | `values()` has one value per key, in key order: the i-th value is the entry of the i-th key. |
| JsMaps.OrderedMap.Delete | server/storage.ts:100-102 | `Map.delete` reports whether the key was present and removes exactly that key. |
| JsMaps.SetNewValues | server/storage.ts:72-74 | After a new key is set, `values()` is the old list with the new value appended. |
| Storage.NewPerson | server/storage.ts:80-89 | A new person carries the given id and creation time, and every supplied field unchanged. |
| Storage.NewMetric | server/storage.ts:113-122 | A new metric copies its input and takes "now" as its date only when no date was given. |
| Storage.NewMilestone | server/storage.ts:135-138 | A new milestone carries the given id and every supplied field unchanged. |
| Storage.NewGoal | server/storage.ts:163-166 | A new goal carries the given id and every supplied field unchanged. |
| Storage.NewRelationship | server/storage.ts:197-200 | A new relationship carries the given id and both people and the type unchanged. |
| Storage.MergePerson | server/storage.ts:95 | A merged person keeps the stored id and creation time. Each other field takes the patch's value when the patch carries it and keeps the stored one otherwise. |
| Storage.MergeMilestone | server/storage.ts:147 | A merged milestone keeps the stored id. Each other field takes the patch's value when the patch carries it and keeps the stored one otherwise. |
| Storage.MergeGoal | server/storage.ts:175 | A merged goal keeps the stored id. Each other field takes the patch's value when the patch carries it and keeps the stored one otherwise. |
| Storage.MergeLaws | server/storage.ts:91-98 | An empty patch changes nothing, and applying a patch twice equals applying it once. |
| Storage.MemStorage.constructor | server/storage.ts:63-69 | The store starts with five empty collections. |
| Storage.MemStorage.GetPeople | server/storage.ts:72-74 | Lists every person in creation order. |
| Storage.MemStorage.GetPerson | server/storage.ts:76-78 | Gives the stored person exactly when the id is present, and "absent" otherwise. |
| Storage.MemStorage.CreatePerson | server/storage.ts:80-89 | Stores the new person under the fresh id, appends it to the listing, and changes no other entry. |
| Storage.MemStorage.UpdatePerson | server/storage.ts:91-98 | For an unknown id, returns absent and leaves people unchanged. Otherwise it stores and returns the merged person under the same key, and changes neither the other entries nor the key order. The listing is the old one with the merged person at the same position. |
| Storage.MemStorage.DeletePerson | server/storage.ts:100-102 | Returns true exactly when the id was present. Then the listing is the old one with that person's position removed, so the others keep their order. Otherwise nothing changes. The person's metrics, milestones, goals and relationships remain: no cascade. |
| Storage.MemStorage.GetAllMetrics | server/storage.ts:105-107 | Lists every metric in insertion order. |
| Storage.MemStorage.GetPersonMetrics | server/storage.ts:109-111 | Exactly the metrics with that `personId`, in insertion order. |
| Storage.MemStorage.CreateMetric | server/storage.ts:113-122 | Stores the new metric under the fresh id and appends it to the listing. |
| Storage.MemStorage.GetAllMilestones | server/storage.ts:125-127 | Lists every milestone in insertion order. |
| Storage.MemStorage.GetPersonMilestones | server/storage.ts:129-131 | Exactly the milestones with that `personId`, in insertion order. |
| Storage.MemStorage.CreateMilestone | server/storage.ts:133-141 | Stores the input plus the fresh id and appends it to the listing. |
| Storage.MemStorage.UpdateMilestone | server/storage.ts:143-150 | For an unknown id, returns absent with no change. Otherwise it stores the merged milestone under the same key and changes nothing else. The listing is the old one with the merged milestone at the same position. |
| Storage.MemStorage.GetGoals | server/storage.ts:153-155 | Lists every goal in insertion order. |
| Storage.MemStorage.GetPersonGoals | server/storage.ts:157-159 | Exactly the goals with that `personId`, in insertion order. |
| Storage.MemStorage.CreateGoal | server/storage.ts:161-169 | Stores the input plus the fresh id and appends it to the listing. |
| Storage.MemStorage.UpdateGoal | server/storage.ts:171-178 | For an unknown id, returns absent with no change. Otherwise it stores the merged goal under the same key and changes nothing else. The listing is the old one with the merged goal at the same position. |
| Storage.MemStorage.DeleteGoal | server/storage.ts:180-182 | Returns true exactly when the id was present. Then the listing is the old one with that goal's position removed, so the others keep their order. Otherwise nothing changes. |
| Storage.MemStorage.GetRelationships | server/storage.ts:185-187 | Lists every relationship in insertion order. |
| Storage.MemStorage.GetPersonRelationships | server/storage.ts:189-193 | Exactly the relationships with the person at either end, in insertion order. |
| Storage.MemStorage.CreateRelationship | server/storage.ts:195-203 | Stores the input plus the fresh id and appends it to the listing. |
| Storage.MemStorage.DeleteRelationship | server/storage.ts:205-207 | Returns true exactly when the id was present. Then the listing is the old one with that relationship's position removed, so the others keep their order. Otherwise nothing changes. |
| Storage.MemStorage.GetPersonInsights | server/storage.ts:210-274 | Fails with "Person not found" exactly when the person is absent. Otherwise it gives the insight for that person id, over the person's own metrics, goals and milestones and over everyone, and reads without changing the store. |
| Storage.MemStorage.GetFamilyStats | server/storage.ts:276-304 | The member count, the mean level rank (within -1..8), the number of completed goals and the number of completed milestones. It has a category average exactly for each of the seven categories with a metric, holding that category's mean. |
| Storage.MemStorage.ListingsHaveDistinctIds | server/storage.ts:72-74 | In a well-formed store every record sits under its own id, so no listing holds two records with one id. |
| Analytics.Rank | server/storage.ts:243 | The rank is -1 exactly when the level is unset or unlisted. Otherwise it is the level's position. |
| Analytics.SumRanks | server/storage.ts:244-247 | The sum of n ranks lies between -n and 8n. |
| Analytics.MeanRank | server/storage.ts:244-247 | The mean rank is 0 with nobody, and always lies in -1..8. |
| Analytics.ComparisonToFamily | server/storage.ts:243-248 | The standing lies in -100..100. It is 0 exactly at the family mean and positive exactly above it. |
| Analytics.InsertionPoint | server/storage.ts:222-223 | In a newest-first list, the insertion point has every earlier metric at least as new as the inserted one and every later metric older. |
| Analytics.InsertByDate | server/storage.ts:222-223 | One insertion keeps the list sorted newest first and adds exactly the new metric. Among metrics of equal date the new one comes last and the others keep their order, as if it had been appended and then stably sorted. |
| Analytics.SortByDateDesc | server/storage.ts:222-223 | The sort gives a newest-first permutation of its input. It is stable: for every date, the metrics of that date appear in their input order, as `Array.prototype.sort` guarantees. |
| Analytics.RecentMetrics | server/storage.ts:222-224 | Keeps the first min(10, n) metrics of the stable newest-first sort, so they are drawn from the input and ties keep their input order. No metric left out is newer than the oldest kept one. |
| Analytics.Velocity | server/storage.ts:225-227 | The velocity is 0 with fewer than 2 metrics. Otherwise it is the rise from the oldest to the newest recent value divided by the window's length. It is positive exactly when the newest recent value exceeds the oldest recent one, and negative exactly when it is below. |
| Analytics.Classify | server/storage.ts:230-232 | "Improving" exactly above 0.2, "declining" exactly below −0.2, and "stable" otherwise, including ±0.2. |
| Analytics.TrendOfMetrics | server/storage.ts:225-232 | The trend is "improving" exactly when, over the recent window, the newest value exceeds the oldest by more than 0.2 per metric in the window, and "declining" exactly when it falls short by more than that. |
| Analytics.CompletionRate | server/storage.ts:235-237 | Lies in 0..100 and is 0 without goals. It is 100 exactly when there are goals and all are completed, and 0 exactly when none is. |
| Analytics.Achievements | server/storage.ts:240 | At most the number of milestones, and 0 exactly when none is completed. |
| Analytics.Recommendations | server/storage.ts:251-263 | Each of the four messages appears exactly when its condition holds: rate < 50, declining, no achievements, fewer than 5 metrics in all. |
| Analytics.RecommendationsInOrder | server/storage.ts:251-263 | The recommendations are an order-preserving subsequence of the four messages, so there are at most four. |
| Analytics.Insights | server/storage.ts:216-273 | Each field of the insight is the quantity defined above. The recommendation counts all of the person's metrics, not only the recent ten. |
| Analytics.MeanValueBounds | server/storage.ts:292-293 | A category mean lies between the smallest and largest of its values. |
| Analytics.SumValuesAddsLast | server/storage.ts:293 | `SumValues` is the `reduce` from 0: the sum of all but the last value, plus the last one. |
| Analytics.SumValuesBounds | server/storage.ts:293 | If every value lies in [lo, hi], the sum of n values lies in [n·lo, n·hi]. |
| Analytics.MeanValue | server/storage.ts:293 | The category mean, taken once per metric, adds up to the sum of the values. |
| Analytics.CategoryAverages | server/storage.ts:289-295 | Has a key exactly for each of the seven categories with at least one metric. The key holds that category's mean, and metrics of other categories are ignored. |
| FamilyUtils.TrimStartDropsWhitespace | client/src/lib/family-utils.ts:7 | The start-trim drops only leading whitespace and keeps a suffix that does not start with whitespace. |
| FamilyUtils.TrimEndDropsWhitespace | client/src/lib/family-utils.ts:7 | The end-trim drops only trailing whitespace and keeps a prefix that does not end with whitespace. |
| FamilyUtils.Trim | client/src/lib/family-utils.ts:7 | `trim` never grows the string. Neither end of the result is whitespace, and a string without whitespace is its own trim. |
| FamilyUtils.TrimDropsWhitespace | client/src/lib/family-utils.ts:7 | The trimmed string is a contiguous slice of the input, and everything before and after that slice is whitespace. |
| FamilyUtils.SplitOnWhitespace | client/src/lib/family-utils.ts:7 | `split(/\s+/)` always gives at least one piece. |
| FamilyUtils.SplitOnWhitespacePieces | client/src/lib/family-utils.ts:7 | No piece of the split holds whitespace. There is a single piece, the string itself, exactly when it has no whitespace. |
| FamilyUtils.SplitOnWhitespaceLast | client/src/lib/family-utils.ts:7-8 | The last piece ends the string and, when there are several pieces, follows a whitespace character. |
| FamilyUtils.GetLastName | client/src/lib/family-utils.ts:6-9 | The last name holds no whitespace. |
| FamilyUtils.GetLastNameIsLastWord | client/src/lib/family-utils.ts:6-9 | The last name has no whitespace and ends the trimmed name, right after whitespace unless it is all of it. |
| FamilyUtils.GetLastNameOfOneWord | client/src/lib/family-utils.ts:6-9 | The last name is "" exactly for a blank name, and a name without whitespace is its own last name. |
| FamilyUtils.LastNameFollowsLastWhitespace | client/src/lib/family-utils.ts:6-9 | The last name is what follows the final whitespace of the trimmed name. |
| FamilyUtils.GetLastNameExample | client/src/lib/family-utils.ts:6-9 | "Ayesha Khan" has last name "Khan". |
| FamilyUtils.LastNameOfBlankIsEmpty | client/src/lib/family-utils.ts:6-9 | Every name made only of whitespace, the empty name included, has last name "". |
| FamilyUtils.ToLower | client/src/lib/family-utils.ts:104 | Lower-casing keeps the length and maps each character. |
| FamilyUtils.Surnames | client/src/lib/family-utils.ts:14-26 | The surname keys are distinct. |
| FamilyUtils.SurnamesAreLastNames | client/src/lib/family-utils.ts:14-26 | A key is a surname exactly when some person has that last name. |
| FamilyUtils.GroupByLastName | client/src/lib/family-utils.ts:14-26 | Keys are the distinct last names in order of first appearance. Each group is exactly the people with that case-sensitive last name, in input order. |
| FamilyUtils.AppendToGroup | client/src/lib/family-utils.ts:18-22 | Opening a group when needed and pushing a person onto it extends the grouping by that person. |
| FamilyUtils.GroupOfPerson | client/src/lib/family-utils.ts:14-26 | Every person's last name is a key, and a person is in the group of their own last name and in no other. |
| FamilyUtils.GroupSizesSum | client/src/lib/family-utils.ts:14-26 | The group sizes add up to the number of people. |
| FamilyUtils.AreConnected | client/src/lib/family-utils.ts:77-87 | True exactly when some relationship links the two in one direction or the other. |
| FamilyUtils.AreConnectedSymmetric | client/src/lib/family-utils.ts:77-87 | Connection does not depend on argument order, and nobody is connected without relationships. |
| FamilyUtils.PairKeyInjective | client/src/lib/family-utils.ts:38-39 | The pair key `PairKey(a, b)`, the template `${a}-${b}`, is injective when first ids have equal length, as UUIDs have: equal pair keys mean equal pairs. |
| FamilyUtils.PairKeyAmbiguous | client/src/lib/family-utils.ts:38-39 | Without equal lengths, two different pairs can share a key. |
| FamilyUtils.ConnectionKeysOfRelationships | client/src/lib/family-utils.ts:36-40 | A key is in the connection set exactly when it is the key of some relationship in one of its two directions. |
| FamilyUtils.CollectConnections | client/src/lib/family-utils.ts:36-40 | The loop builds exactly the connection set of all relationships. |
| FamilyUtils.HasUnconnectedPair | client/src/lib/family-utils.ts:52-64 | The nested scan with its early breaks reports true exactly when some pair i < j of the group has no key in the connection set. |
| FamilyUtils.ReportStep | client/src/lib/family-utils.ts:48-68 | Handling one more surname reports its group exactly when that group is unconnected, and keeps the whole-group invariant. |
| FamilyUtils.FindUnconnectedFamilyMembers | client/src/lib/family-utils.ts:31-72 | The keys are, in grouping order, the surnames whose group has two or more people and an unconnected pair. Each value is that whole, unchanged group. |
| FamilyUtils.KeyInConnectionsIffConnected | client/src/lib/family-utils.ts:36-40 | With ids of one length, a pair's key is a connection exactly when the two are connected. |
| FamilyUtils.UnconnectedAgreesWithAreConnected | client/src/lib/family-utils.ts:31-87 | With ids of one length, a surname is reported exactly when its group has two or more people and some pair in it is not connected in either direction. |
| FamilyUtils.GetSuggestedConnections | client/src/lib/family-utils.ts:92-106 | An order-preserving subsequence of all people. It includes someone exactly when they are someone else, not connected, and share the last name ignoring case, so it never includes the person. |
| FamilyUtils.SuggestionsAreMutual | client/src/lib/family-utils.ts:92-106 | If someone is suggested to a person, that person is suggested back. |
| FamilyUtils.KhanIsSuggested | client/src/lib/family-utils.ts:97-104 | "Bilal KHAN" passes the suggestion test for "Ayesha Khan": last names are compared ignoring letter case. |
| FamilyUtils.KhanGroupLeavesOutUpperCase | client/src/lib/family-utils.ts:17-22 | Of "Ayesha Khan" and "Bilal KHAN", the group keyed "Khan" holds only Ayesha: grouping compares last names exactly. |
| FamilyUtils.SuggestedButGroupedApart | client/src/lib/family-utils.ts:17-22 | "Bilal KHAN" is suggested to "Ayesha Khan", yet the group of Ayesha's last name holds Ayesha alone: suggestion ignores case and grouping does not. |

## Left out

- The React pages, dialogs and badge markup are left out. They render and duplicate store arithmetic for display.
- The HTTP routes and their request parsing are left out. They are glue over the store.
- The database table definitions and their `onDelete: "cascade"` annotations are left out. A database would enforce them, but the in-memory store does not.
- Asynchrony is not modelled. Every store method completes without waiting, so `Promise` results are plain results.
- `randomUUID()` is not modelled. The fresh id is a parameter, with a precondition that the collection does not hold it.
- The clock is not modelled. `new Date()` is a timestamp parameter, and dates are integers, so an invalid date (NaN time) is not modelled.
- JavaScript floating point, NaN and rounding are not modelled. Values and averages are exact reals.
- Storage.NewMetric: a falsy `date` is modelled as an absent date. A `Date` object is always truthy, so only a missing date falls back to "now".
- FamilyUtils.IsWhitespace: only ASCII whitespace is modelled: space, tab, line feed, carriage return, vertical tab and form feed. JavaScript's `\s` and `trim` also treat Unicode spaces, such as the no-break space, as whitespace.
- FamilyUtils.ToLower: only ASCII letters are folded. `toLowerCase` also folds other scripts.
- ProgressBadge.LevelColor: ignores JavaScript prototype keys. `LEVEL_COLORS["constructor"]` is a truthy inherited function, whereas the model falls back to "Average" for every unlisted string.
- Storage.MemStorage.GetFamilyStats: the unused `familyId` argument is dropped.
- Storage.MemStorage.GetFamilyStats: the enumeration order of `categoryAverages` keys is not kept, because the result is a Dafny `map`.
- Storage.MemStorage.GetPersonInsights: sorting the person's filtered metrics in place does not affect the store, so the model sorts a copy.
- FamilyUtils.FindUnconnectedFamilyMembers: the connection set holds the string keys `${a}-${b}` as written. They agree with `AreConnected` only when ids have one length, which `UnconnectedAgreesWithAreConnected` makes a precondition. Ids from `randomUUID` are always 36 characters long.
