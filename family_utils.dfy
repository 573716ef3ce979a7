/** Surname and relationship utilities: the last name of a full name, people
    grouped by last name, the test whether two people are already linked, the
    surname groups that still hold an unlinked pair, and the people suggested
    as relatives of a given person.

    Whitespace is the ASCII whitespace of JavaScript's `\s` and `trim`; letter
    case is folded for ASCII letters only. */
module FamilyUtils {
  import opened Schema
  import opened JsMaps
  import opened Lists

  // ---------------------------------------------------------------------------
  // Last names

  predicate IsWhitespace(c: char)
  {
    c == ' ' || c == '\t' || c == '\n' || c == '\r' || c == '\U{B}' || c == '\U{C}'
  }

  predicate HasNoWhitespace(s: string)
  {
    forall i :: 0 <= i < |s| ==> !IsWhitespace(s[i])
  }

  /** Drops the whitespace at the start. */
  function TrimStart(s: string): (r: string)
    ensures |r| <= |s|
  {
    if s != [] && IsWhitespace(s[0]) then TrimStart(s[1..]) else s
  }

  /** What `TrimStart` drops is whitespace, and what it keeps ends `s` and does
      not start with whitespace. */
  lemma {:induction false} TrimStartDropsWhitespace(s: string)
    ensures var r := TrimStart(s);
      && r == s[|s| - |r|..]
      && (r == [] || !IsWhitespace(r[0]))
      && (forall i :: 0 <= i < |s| - |r| ==> IsWhitespace(s[i]))
  {
    if s != [] && IsWhitespace(s[0]) {
      TrimStartDropsWhitespace(s[1..]);
      var r := TrimStart(s[1..]);
      assert s[1..][|s| - 1 - |r|..] == s[|s| - |r|..];
      forall i | 0 <= i < |s| - |r| ensures IsWhitespace(s[i]) {
        if i > 0 { assert s[i] == s[1..][i - 1]; }
      }
    }
  }

  /** Drops the whitespace at the end. */
  function TrimEnd(s: string): (r: string)
    ensures |r| <= |s|
  {
    if s != [] && IsWhitespace(s[|s| - 1]) then TrimEnd(s[..|s| - 1]) else s
  }

  /** What `TrimEnd` drops is whitespace, and what it keeps starts `s` and does
      not end with whitespace. */
  lemma {:induction false} TrimEndDropsWhitespace(s: string)
    ensures var r := TrimEnd(s);
      && r == s[..|r|]
      && (r == [] || !IsWhitespace(r[|r| - 1]))
      && (forall i :: |r| <= i < |s| ==> IsWhitespace(s[i]))
  {
    if s != [] && IsWhitespace(s[|s| - 1]) {
      TrimEndDropsWhitespace(s[..|s| - 1]);
      var r := TrimEnd(s[..|s| - 1]);
      assert s[..|s| - 1][..|r|] == s[..|r|];
      forall i | |r| <= i < |s| ensures IsWhitespace(s[i]) {
        if i < |s| - 1 { assert s[i] == s[..|s| - 1][i]; }
      }
    }
  }

  /** `s.trim()`: neither end of the result is whitespace, and a string
      without whitespace is its own trim. */
  function Trim(s: string): (r: string)
    ensures |r| <= |s|
    ensures r == [] || (!IsWhitespace(r[0]) && !IsWhitespace(r[|r| - 1]))
    ensures HasNoWhitespace(s) ==> r == s
  {
    var t := TrimStart(s);
    TrimStartDropsWhitespace(s);
    TrimEndDropsWhitespace(t);
    var r := TrimEnd(t);
    assert r != [] ==> r[0] == t[0];
    r
  }

  /** The trimmed string is a slice of `s`, and everything around that slice is
      whitespace. */
  lemma TrimDropsWhitespace(s: string)
    ensures var a, r := |s| - |TrimStart(s)|, Trim(s);
      && a + |r| <= |s| && r == s[a..a + |r|]
      && (forall k :: 0 <= k < a ==> IsWhitespace(s[k]))
      && (forall k :: a + |r| <= k < |s| ==> IsWhitespace(s[k]))
  {
    TrimStartDropsWhitespace(s);
    var t := TrimStart(s);
    TrimEndDropsWhitespace(t);
    var a, r := |s| - |t|, TrimEnd(t);
    forall k | a + |r| <= k < |s| ensures IsWhitespace(s[k]) {
      assert s[k] == t[k - a];
    }
  }

  /** The length of the leading run of non-whitespace characters. */
  function FirstWhitespace(s: string): (i: nat)
    ensures i <= |s|
    ensures i < |s| ==> IsWhitespace(s[i])
  {
    if s == [] || IsWhitespace(s[0]) then 0 else 1 + FirstWhitespace(s[1..])
  }

  /** Everything before the first whitespace character is not whitespace. */
  lemma {:induction false} BeforeFirstWhitespace(s: string)
    ensures HasNoWhitespace(s[..FirstWhitespace(s)])
  {
    if s != [] && !IsWhitespace(s[0]) {
      BeforeFirstWhitespace(s[1..]);
      var i := FirstWhitespace(s);
      forall k | 0 <= k < i ensures !IsWhitespace(s[..i][k]) {
        if k > 0 { assert s[..i][k] == s[1..][..i - 1][k - 1]; }
      }
    }
  }

  /** `s.split(/\s+/)`: the pieces between runs of whitespace, never none. */
  function SplitOnWhitespace(s: string): (parts: seq<string>)
    ensures |parts| >= 1
    decreases |s|
  {
    var i := FirstWhitespace(s);
    if i == |s| then [s]
    else [s[..i]] + SplitOnWhitespace(TrimStart(s[i + 1..]))
  }

  /** None of the pieces holds whitespace, and there is one piece, `s` itself,
      exactly when `s` has no whitespace. */
  lemma {:induction false} SplitOnWhitespacePieces(s: string)
    ensures var parts := SplitOnWhitespace(s);
      && (forall k :: 0 <= k < |parts| ==> HasNoWhitespace(parts[k]))
      && (|parts| == 1 <==> HasNoWhitespace(s))
      && (|parts| == 1 ==> parts[0] == s)
    decreases |s|
  {
    var i := FirstWhitespace(s);
    if i == |s| {
      BeforeFirstWhitespace(s);
      assert s[..i] == s;
    } else {
      var rest := TrimStart(s[i + 1..]);
      SplitOnWhitespacePieces(rest);
      var tail := SplitOnWhitespace(rest);
      var parts := [s[..i]] + tail;
      assert !HasNoWhitespace(s) by { assert IsWhitespace(s[i]); }
      BeforeFirstWhitespace(s);
      forall k | 0 <= k < |parts| ensures HasNoWhitespace(parts[k]) {
        if k > 0 { assert parts[k] == tail[k - 1]; }
      }
    }
  }

  /** `u` is a suffix of `s`. */
  ghost predicate EndsWith(s: string, u: string)
  {
    |u| <= |s| && u == s[|s| - |u|..]
  }

  /** The character just before the suffix `u` of `s` is whitespace. */
  ghost predicate FollowsWhitespace(s: string, u: string)
  {
    |u| < |s| && IsWhitespace(s[|s| - |u| - 1])
  }

  /** The last piece ends `s` and, when there are several, follows a
      whitespace character. */
  lemma {:induction false} SplitOnWhitespaceLast(s: string)
    ensures var parts := SplitOnWhitespace(s); var last := parts[|parts| - 1];
      && EndsWith(s, last)
      && (|parts| > 1 ==> FollowsWhitespace(s, last))
    decreases |s|
  {
    var i := FirstWhitespace(s);
    if i < |s| {
      var rest := TrimStart(s[i + 1..]);
      RestAfterWhitespace(s, i);
      SplitOnWhitespaceLast(rest);
      var tail := SplitOnWhitespace(rest);
      assert SplitOnWhitespace(s) == [s[..i]] + tail;
      SuffixOfSuffix(s, rest, tail[|tail| - 1]);
    }
  }

  /** What follows a whitespace character once leading whitespace is dropped
      ends `s` right after a whitespace character. */
  lemma RestAfterWhitespace(s: string, i: nat)
    requires i < |s| && IsWhitespace(s[i])
    ensures var rest := TrimStart(s[i + 1..]);
      && |rest| < |s|
      && EndsWith(s, rest) && FollowsWhitespace(s, rest)
  {
    var after := s[i + 1..];
    TrimStartDropsWhitespace(after);
    var rest := TrimStart(after);
    if |rest| < |after| {
      assert IsWhitespace(after[|after| - |rest| - 1]);
    }
  }

  lemma SuffixOfSuffix(s: string, t: string, u: string)
    requires EndsWith(s, t) && EndsWith(t, u)
    ensures EndsWith(s, u)
    ensures FollowsWhitespace(t, u) ==> FollowsWhitespace(s, u)
  {
  }

  /** `getLastName`: the last piece of the trimmed name split on whitespace,
      which holds no whitespace. */
  function GetLastName(fullName: string): (r: string)
    ensures HasNoWhitespace(r)
  {
    var t := Trim(fullName);
    SplitOnWhitespacePieces(t);
    var parts := SplitOnWhitespace(t);
    parts[|parts| - 1]
  }

  /** The last name holds no whitespace and ends the trimmed name, right after a
      whitespace character unless it is the whole trimmed name. */
  lemma GetLastNameIsLastWord(fullName: string)
    ensures HasNoWhitespace(GetLastName(fullName))
    ensures var t, r := Trim(fullName), GetLastName(fullName);
      EndsWith(t, r) && (|r| < |t| ==> FollowsWhitespace(t, r))
  {
    var t := Trim(fullName);
    SplitOnWhitespacePieces(t);
    SplitOnWhitespaceLast(t);
  }

  /** The last name is empty exactly when the name is blank, and a name
      without whitespace is its own last name. */
  lemma GetLastNameOfOneWord(fullName: string)
    ensures GetLastName(fullName) == [] <==> Trim(fullName) == []
    ensures HasNoWhitespace(fullName) ==> GetLastName(fullName) == fullName
  {
    var t := Trim(fullName);
    SplitOnWhitespacePieces(t);
    GetLastNameIsLastWord(fullName);
    var parts := SplitOnWhitespace(t);
    if |parts| == 1 {
      assert GetLastName(fullName) == t;
    }
  }

  /** A name made of whitespace only, the empty name included, has the empty
      last name. */
  lemma LastNameOfBlankIsEmpty(s: string)
    requires forall i :: 0 <= i < |s| ==> IsWhitespace(s[i])
    ensures GetLastName(s) == ""
  {
    TrimStartDropsWhitespace(s);
    GetLastNameOfOneWord(s);
  }

  /** The last name is what follows the last whitespace character of the
      trimmed name. */
  lemma {:induction false} LastNameFollowsLastWhitespace(fullName: string, j: nat)
    requires var t := Trim(fullName);
      j < |t| && IsWhitespace(t[j]) && HasNoWhitespace(t[j + 1..])
    ensures var t := Trim(fullName); GetLastName(fullName) == t[j + 1..]
  {
    var t := Trim(fullName);
    GetLastNameIsLastWord(fullName);
  }

  lemma GetLastNameExample()
    ensures GetLastName("Ayesha Khan") == "Khan"
  {
    var name := "Ayesha Khan";
    assert Trim(name) == name;
    assert HasNoWhitespace(name[7..]);
    LastNameFollowsLastWhitespace(name, 6);
  }

  function LowerChar(c: char): char
  {
    if 'A' <= c <= 'Z' then (c as int + 32) as char else c
  }

  /** `s.toLowerCase()` for ASCII letters. */
  function ToLower(s: string): (r: string)
    ensures |r| == |s|
    ensures forall i :: 0 <= i < |s| ==> r[i] == LowerChar(s[i])
  {
    seq(|s|, i requires 0 <= i < |s| => LowerChar(s[i]))
  }

  // ---------------------------------------------------------------------------
  // Grouping by last name

  function HasLastName(lastName: string): Person -> bool
  {
    (p: Person) => GetLastName(p.name) == lastName
  }

  /** The distinct last names of `people`, in the order of their first appearance. */
  function Surnames(people: seq<Person>): (keys: seq<string>)
    ensures forall i, j :: 0 <= i < j < |keys| ==> keys[i] != keys[j]
  {
    if people == [] then []
    else
      var keys := Surnames(people[..|people| - 1]);
      var lastName := GetLastName(people[|people| - 1].name);
      if lastName in keys then keys else keys + [lastName]
  }

  /** The surnames are exactly the last names of the people. */
  lemma {:induction false} SurnamesAreLastNames(people: seq<Person>, k: string)
    ensures k in Surnames(people) <==> exists p :: p in people && GetLastName(p.name) == k
  {
    if people != [] {
      var init, last := people[..|people| - 1], people[|people| - 1];
      assert people == init + [last];
      SurnamesAreLastNames(init, k);
      if k in Surnames(people) && k !in Surnames(init) {
        assert last in people;
      }
      if p :| p in people && GetLastName(p.name) == k {
        if p != last { assert p in init; }
      }
    }
  }

  /** A last name that nobody in `people` has gets an empty group. */
  lemma NoGroupForUnusedName(people: seq<Person>, lastName: string)
    requires lastName !in Surnames(people)
    ensures Filter(people, HasLastName(lastName)) == []
  {
    SurnamesAreLastNames(people, lastName);
    FilterAll(people, HasLastName(lastName));
    forall i | 0 <= i < |people| ensures !HasLastName(lastName)(people[i]) {
      assert people[i] in people;
    }
  }

  /** One more person adds their last name at the end, unless it is there already. */
  lemma SurnamesSnoc(people: seq<Person>, p: Person)
    ensures var keys, lastName := Surnames(people), GetLastName(p.name);
      Surnames(people + [p]) == if lastName in keys then keys else keys + [lastName]
  {
    assert (people + [p])[..|people|] == people;
  }

  /** One more person joins the end of their own group and of no other. */
  lemma FilterByNameSnoc(people: seq<Person>, p: Person, k: string)
    ensures Filter(people + [p], HasLastName(k)) ==
      Filter(people, HasLastName(k)) + if GetLastName(p.name) == k then [p] else []
  {
    FilterAppend(people, [p], HasLastName(k));
  }

  /** `groups` is the grouping of `people` by last name: one key per distinct
      last name in order of first appearance, and under each key exactly the
      people with that last name, in their order. */
  ghost predicate GroupsOf(groups: OrderedMap<string, seq<Person>>, people: seq<Person>)
  {
    && groups.Valid()
    && groups.keys == Surnames(people)
    && forall k :: k in groups.entries ==> groups.entries[k] == Filter(people, HasLastName(k))
  }

  /** Opening a group when needed and appending a person to it extends the
      grouping by that person. */
  lemma AppendToGroup(groups: OrderedMap<string, seq<Person>>, people: seq<Person>, p: Person)
    requires GroupsOf(groups, people)
    ensures var lastName := GetLastName(p.name);
      var withGroup := if groups.Has(lastName) then groups else groups.Set(lastName, []);
      GroupsOf(withGroup.Set(lastName, withGroup.entries[lastName] + [p]), people + [p])
  {
    var lastName := GetLastName(p.name);
    SurnamesSnoc(people, p);
    if !groups.Has(lastName) {
      NoGroupForUnusedName(people, lastName);
    }
    var withGroup := if groups.Has(lastName) then groups else groups.Set(lastName, []);
    var grown := withGroup.Set(lastName, withGroup.entries[lastName] + [p]);
    forall k | k in grown.entries
      ensures grown.entries[k] == Filter(people + [p], HasLastName(k))
    {
      FilterByNameSnoc(people, p, k);
    }
  }

  /** `groupByLastName`: one group per distinct last name, keys in order of first
      appearance, each group holding exactly the people with that last name in
      their input order. */
  method GroupByLastName(people: seq<Person>) returns (groups: OrderedMap<string, seq<Person>>)
    ensures GroupsOf(groups, people)
  {
    groups := Empty();
    for i := 0 to |people|
      invariant GroupsOf(groups, people[..i])
    {
      var person := people[i];
      var lastName := GetLastName(person.name);
      assert people[..i + 1] == people[..i] + [person];
      AppendToGroup(groups, people[..i], person);
      if !groups.Has(lastName) {
        groups := groups.Set(lastName, []);
      }
      groups := groups.Set(lastName, groups.entries[lastName] + [person]);
    }
    assert people[..|people|] == people;
  }

  /** The sizes of the groups named by `keys`. */
  function GroupSizes(keys: seq<string>, people: seq<Person>): nat
  {
    if keys == [] then 0
    else GroupSizes(keys[..|keys| - 1], people) + |Filter(people, HasLastName(keys[|keys| - 1]))|
  }

  lemma {:induction false} GroupSizesAppend(keys: seq<string>, people: seq<Person>, p: Person)
    requires forall i, j :: 0 <= i < j < |keys| ==> keys[i] != keys[j]
    ensures GroupSizes(keys, people + [p]) ==
      GroupSizes(keys, people) + if GetLastName(p.name) in keys then 1 else 0
  {
    if keys != [] {
      var init, k := keys[..|keys| - 1], keys[|keys| - 1];
      var name := GetLastName(p.name);
      GroupSizesAppend(init, people, p);
      FilterByNameSnoc(people, p, k);
      assert keys == init + [k];
      assert k !in init;
    }
  }

  /** Every person falls in exactly one group, so the group sizes add up to the
      number of people. */
  lemma {:induction false} GroupSizesSum(people: seq<Person>)
    ensures GroupSizes(Surnames(people), people) == |people|
  {
    if people != [] {
      var init, p := people[..|people| - 1], people[|people| - 1];
      assert people == init + [p];
      GroupSizesSum(init);
      var keys := Surnames(init);
      GroupSizesAppend(keys, init, p);
      var lastName := GetLastName(p.name);
      if lastName !in keys {
        NoGroupForUnusedName(init, lastName);
        FilterAppend(init, [p], HasLastName(lastName));
        assert Surnames(people) == keys + [lastName];
        assert (keys + [lastName])[..|keys|] == keys;
      }
    }
  }

  /** A person is in the group of their own last name and in no other. */
  lemma {:induction false} GroupOfPerson(people: seq<Person>, p: Person, k: string)
    requires p in people
    ensures GetLastName(p.name) in Surnames(people)
    ensures p in Filter(people, HasLastName(k)) <==> k == GetLastName(p.name)
  {
    SurnamesAreLastNames(people, GetLastName(p.name));
  }

  // ---------------------------------------------------------------------------
  // Connections

  /** One relationship links `a` and `b`, in either direction. */
  predicate Links(r: FamilyRelationship, a: Id, b: Id)
  {
    (r.personId == a && r.relatedPersonId == b) || (r.personId == b && r.relatedPersonId == a)
  }

  /** `areConnected`: some relationship links the two, in either direction. */
  function AreConnected(a: Id, b: Id, relationships: seq<FamilyRelationship>): (c: bool)
    ensures c <==> exists i :: 0 <= i < |relationships| && Links(relationships[i], a, b)
  {
    if relationships == [] then false
    else Links(relationships[0], a, b) || AreConnected(a, b, relationships[1..])
  }

  /** Being connected does not depend on the order of the two people, and
      nobody is connected when there are no relationships. */
  lemma AreConnectedSymmetric(a: Id, b: Id, relationships: seq<FamilyRelationship>)
    ensures AreConnected(a, b, relationships) == AreConnected(b, a, relationships)
    ensures !AreConnected(a, b, [])
  {
  }

  /** The string key `${a}-${b}` under which a directed pair is remembered. */
  function PairKey(a: Id, b: Id): string
  {
    a + "-" + b
  }

  /** The key of a pair determines the pair when the first ids have equal
      length, as `randomUUID` ids (36 characters, RFC 4122 section 3) always do. */
  lemma PairKeyInjective(a: Id, b: Id, c: Id, d: Id)
    requires |a| == |c|
    ensures PairKey(a, b) == PairKey(c, d) <==> a == c && b == d
  {
    if PairKey(a, b) == PairKey(c, d) {
      assert a == PairKey(a, b)[..|a|] == PairKey(c, d)[..|c|] == c;
      assert b == PairKey(a, b)[|a| + 1..] == PairKey(c, d)[|c| + 1..] == d;
    }
  }

  /** Without equal lengths the key is ambiguous: two different pairs share one. */
  lemma PairKeyAmbiguous()
    ensures PairKey("x-y", "z") == PairKey("x", "y-z")
    ensures "x-y" != "x"
  {
  }

  /** `key` is the key of `r` in one of its two directions. */
  predicate IsKeyOf(key: string, r: FamilyRelationship)
  {
    key == PairKey(r.personId, r.relatedPersonId) || key == PairKey(r.relatedPersonId, r.personId)
  }

  /** Both keys of every relationship, as the `connections` set holds them. */
  function ConnectionKeys(relationships: seq<FamilyRelationship>): set<string>
  {
    if relationships == [] then {}
    else
      var r := relationships[|relationships| - 1];
      ConnectionKeys(relationships[..|relationships| - 1]) +
        {PairKey(r.personId, r.relatedPersonId), PairKey(r.relatedPersonId, r.personId)}
  }

  /** A key is a connection exactly when it is the key of some relationship
      in one of its two directions. */
  lemma {:induction false} ConnectionKeysOfRelationships(relationships: seq<FamilyRelationship>, key: string)
    ensures key in ConnectionKeys(relationships) <==> exists r :: r in relationships && IsKeyOf(key, r)
  {
    if relationships != [] {
      var init, last := relationships[..|relationships| - 1], relationships[|relationships| - 1];
      assert relationships == init + [last];
      ConnectionKeysOfRelationships(init, key);
      if key in ConnectionKeys(relationships) && key !in ConnectionKeys(init) {
        assert last in relationships;
      }
      if r :| r in relationships && IsKeyOf(key, r) {
        if r != last { assert r in init; }
      }
    }
  }

  /** Every pair i < j of the group has its key among the connections. */
  predicate AllPairsConnected(members: seq<Person>, connections: set<string>)
  {
    forall i, j :: 0 <= i < j < |members| ==> PairKey(members[i].id, members[j].id) in connections
  }

  /** A surname group is reported when it has two or more people and some pair
      in it is not connected. */
  function IsUnconnectedGroup(people: seq<Person>, connections: set<string>): string -> bool
  {
    (lastName: string) =>
      var members := Filter(people, HasLastName(lastName));
      |members| >= 2 && !AllPairsConnected(members, connections)
  }

  /** The last names that `findUnconnectedFamilyMembers` reports, in order. */
  function UnconnectedSurnames(people: seq<Person>, relationships: seq<FamilyRelationship>): seq<string>
  {
    Filter(Surnames(people), IsUnconnectedGroup(people, ConnectionKeys(relationships)))
  }

  /** The pair scan of one surname group: walks the pairs i < j in order and
      stops at the first whose key is not a connection. */
  method HasUnconnectedPair(members: seq<Person>, connections: set<string>) returns (hasUnconnected: bool)
    ensures hasUnconnected <==> !AllPairsConnected(members, connections)
  {
    hasUnconnected := false;
    var i := 0;
    while i < |members|
      invariant 0 <= i <= |members|
      invariant forall a, b :: 0 <= a < i && a < b < |members| ==>
        PairKey(members[a].id, members[b].id) in connections
    {
      var j := i + 1;
      while j < |members|
        invariant i + 1 <= j <= |members|
        invariant forall b :: i < b < j ==> PairKey(members[i].id, members[b].id) in connections
      {
        var key := PairKey(members[i].id, members[j].id);
        if key !in connections {
          hasUnconnected := true;
          break;
        }
        j := j + 1;
      }
      if hasUnconnected {
        break;
      }
      i := i + 1;
    }
  }

  /** `unconnected` holds, under each of its keys, that surname's whole group
      of two or more people. */
  ghost predicate HoldsWholeGroups(unconnected: OrderedMap<string, seq<Person>>, people: seq<Person>)
  {
    forall k :: k in unconnected.entries ==>
      unconnected.entries[k] == Filter(people, HasLastName(k)) && |unconnected.entries[k]| >= 2
  }

  /** The connection set built one relationship at a time. */
  method CollectConnections(relationships: seq<FamilyRelationship>) returns (connections: set<string>)
    ensures connections == ConnectionKeys(relationships)
  {
    connections := {};
    for r := 0 to |relationships|
      invariant connections == ConnectionKeys(relationships[..r])
    {
      var rel := relationships[r];
      connections := connections + {PairKey(rel.personId, rel.relatedPersonId)};
      connections := connections + {PairKey(rel.relatedPersonId, rel.personId)};
      assert relationships[..r + 1][..r] == relationships[..r];
    }
    assert relationships[..|relationships|] == relationships;
  }

  /** Looking at one more surname, not seen before, reports its group exactly
      when that group is unconnected. */
  lemma ReportStep(unconnected: OrderedMap<string, seq<Person>>, people: seq<Person>,
                   seen: seq<string>, lastName: string, connections: set<string>)
    requires unconnected.Valid() && HoldsWholeGroups(unconnected, people)
    requires unconnected.keys == Filter(seen, IsUnconnectedGroup(people, connections))
    requires lastName !in seen
    ensures var members := Filter(people, HasLastName(lastName));
      var next := if IsUnconnectedGroup(people, connections)(lastName)
        then unconnected.Set(lastName, members) else unconnected;
      && next.Valid() && HoldsWholeGroups(next, people)
      && next.keys == Filter(seen + [lastName], IsUnconnectedGroup(people, connections))
  {
    var report := IsUnconnectedGroup(people, connections);
    FilterAppend(seen, [lastName], report);
    assert Filter([lastName], report) == if report(lastName) then [lastName] else [];
    if report(lastName) {
      assert lastName !in unconnected.keys;
      var next := unconnected.Set(lastName, Filter(people, HasLastName(lastName)));
      assert next.keys == unconnected.keys + [lastName];
    }
  }

  lemma TakeOneMore<T>(s: seq<T>, n: nat)
    requires n < |s|
    ensures s[..n + 1] == s[..n] + [s[n]]
  {
  }

  /** `findUnconnectedFamilyMembers`: the surname groups, unchanged and in
      grouping order, that hold two or more people and an unconnected pair. */
  method FindUnconnectedFamilyMembers(people: seq<Person>, relationships: seq<FamilyRelationship>)
    returns (unconnected: OrderedMap<string, seq<Person>>)
    ensures unconnected.Valid()
    ensures unconnected.keys == UnconnectedSurnames(people, relationships)
    ensures HoldsWholeGroups(unconnected, people)
  {
    var connections := CollectConnections(relationships);
    var familyGroups := GroupByLastName(people);
    var surnames := familyGroups.keys;

    unconnected := Empty();
    for g := 0 to |surnames|
      invariant unconnected.Valid()
      invariant unconnected.keys == Filter(surnames[..g], IsUnconnectedGroup(people, connections))
      invariant HoldsWholeGroups(unconnected, people)
    {
      var lastName := surnames[g];
      var members := familyGroups.entries[lastName];
      TakeOneMore(surnames, g);
      assert lastName !in surnames[..g];
      ReportStep(unconnected, people, surnames[..g], lastName, connections);
      if |members| < 2 {
        continue;
      }
      var hasUnconnected := HasUnconnectedPair(members, connections);
      if hasUnconnected {
        unconnected := unconnected.Set(lastName, members);
      }
    }
    assert surnames[..|surnames|] == surnames;
  }

  /** With ids of one length, a pair's key is among the connections exactly
      when the two are connected in either direction. */
  lemma {:induction false} KeyInConnectionsIffConnected(
    a: Id, b: Id, relationships: seq<FamilyRelationship>, idLength: nat)
    requires |a| == idLength
    requires forall r :: r in relationships ==> |r.personId| == idLength && |r.relatedPersonId| == idLength
    ensures PairKey(a, b) in ConnectionKeys(relationships) <==> AreConnected(a, b, relationships)
  {
    ConnectionKeysOfRelationships(relationships, PairKey(a, b));
    if PairKey(a, b) in ConnectionKeys(relationships) {
      var r :| r in relationships && IsKeyOf(PairKey(a, b), r);
      PairKeyInjective(a, b, r.personId, r.relatedPersonId);
      PairKeyInjective(a, b, r.relatedPersonId, r.personId);
      var k :| 0 <= k < |relationships| && relationships[k] == r;
      assert Links(relationships[k], a, b);
    }
    if AreConnected(a, b, relationships) {
      var k :| 0 <= k < |relationships| && Links(relationships[k], a, b);
      assert relationships[k] in relationships && IsKeyOf(PairKey(a, b), relationships[k]);
    }
  }

  /** With ids of one length, the groups reported are exactly those of two or
      more people in which some pair is not connected in either direction. */
  lemma {:induction false} UnconnectedAgreesWithAreConnected(
    people: seq<Person>, relationships: seq<FamilyRelationship>, idLength: nat, lastName: string)
    requires forall p :: p in people ==> |p.id| == idLength
    requires forall r :: r in relationships ==> |r.personId| == idLength && |r.relatedPersonId| == idLength
    ensures lastName in UnconnectedSurnames(people, relationships) <==>
      && lastName in Surnames(people)
      && var members := Filter(people, HasLastName(lastName));
         |members| >= 2 &&
         exists i, j :: 0 <= i < j < |members| && !AreConnected(members[i].id, members[j].id, relationships)
  {
    var members := Filter(people, HasLastName(lastName));
    var connections := ConnectionKeys(relationships);
    forall i, j | 0 <= i < j < |members|
      ensures PairKey(members[i].id, members[j].id) in connections <==>
        AreConnected(members[i].id, members[j].id, relationships)
    {
      assert members[i] in people;
      KeyInConnectionsIffConnected(members[i].id, members[j].id, relationships, idLength);
    }
  }

  // ---------------------------------------------------------------------------
  // Suggestions

  /** `other` is worth suggesting to `person`: someone else, not yet connected,
      whose last name matches when letter case is ignored. */
  function IsSuggestion(person: Person, relationships: seq<FamilyRelationship>): Person -> bool
  {
    (other: Person) =>
      && other.id != person.id
      && !AreConnected(person.id, other.id, relationships)
      && ToLower(GetLastName(person.name)) == ToLower(GetLastName(other.name))
  }

  /** `getSuggestedConnections`: the people of `allPeople`, in their order, who
      are not `person`, not connected to `person`, and share `person`'s last name
      up to letter case. */
  function GetSuggestedConnections(person: Person, allPeople: seq<Person>,
                                   relationships: seq<FamilyRelationship>): (r: seq<Person>)
    ensures IsSubsequence(r, allPeople)
    ensures forall p :: p in r <==>
      && p in allPeople
      && p.id != person.id
      && !AreConnected(person.id, p.id, relationships)
      && ToLower(GetLastName(p.name)) == ToLower(GetLastName(person.name))
    ensures person !in r
  {
    FilterIsSubsequence(allPeople, IsSuggestion(person, relationships));
    Filter(allPeople, IsSuggestion(person, relationships))
  }

  /** Suggesting is mutual: whoever is suggested to `person` has `person`
      suggested back, as long as `person` is among the people looked at. */
  lemma SuggestionsAreMutual(person: Person, other: Person, allPeople: seq<Person>,
                             relationships: seq<FamilyRelationship>)
    requires person in allPeople
    requires other in GetSuggestedConnections(person, allPeople, relationships)
    ensures person in GetSuggestedConnections(other, allPeople, relationships)
  {
    AreConnectedSymmetric(person.id, other.id, relationships);
  }

  lemma UpperCaseLastName()
    ensures GetLastName("Bilal KHAN") == "KHAN"
  {
    var name := "Bilal KHAN";
    assert Trim(name) == name;
    assert HasNoWhitespace(name[6..]);
    LastNameFollowsLastWhitespace(name, 5);
  }

  /** Letter case does not keep "Bilal KHAN" from being suggested to "Ayesha Khan". */
  lemma KhanIsSuggested(ayesha: Person, bilal: Person)
    requires ayesha.name == "Ayesha Khan" && bilal.name == "Bilal KHAN" && ayesha.id != bilal.id
    ensures IsSuggestion(ayesha, [])(bilal)
  {
    GetLastNameExample();
    UpperCaseLastName();
    SameLowerCase("Khan", "KHAN");
    assert !AreConnected(ayesha.id, bilal.id, []);
  }

  /** "Khan" and "KHAN" differ only in letter case. */
  lemma SameLowerCase(a: string, b: string)
    requires a == "Khan" && b == "KHAN"
    ensures ToLower(a) == ToLower(b)
  {
    forall i | 0 <= i < 4 ensures ToLower(a)[i] == ToLower(b)[i] {
      assert LowerChar(a[i]) == LowerChar(b[i]);
    }
  }

  /** Grouping compares last names exactly, so the group of "Khan" leaves "Bilal KHAN" out. */
  lemma KhanGroupLeavesOutUpperCase(ayesha: Person, bilal: Person)
    requires ayesha.name == "Ayesha Khan" && bilal.name == "Bilal KHAN"
    ensures Filter([ayesha, bilal], HasLastName("Khan")) == [ayesha]
  {
    GetLastNameExample();
    UpperCaseLastName();
    assert "KHAN" != "Khan" by { assert "KHAN"[1] != "Khan"[1]; }
    assert [ayesha, bilal] == [ayesha] + [bilal];
    FilterAppend([ayesha], [bilal], HasLastName("Khan"));
  }

  /** Suggestions ignore letter case but grouping does not: "Bilal KHAN" is
      suggested to "Ayesha Khan", yet the group of "Khan" holds Ayesha alone. */
  lemma SuggestedButGroupedApart(ayesha: Person, bilal: Person)
    requires ayesha.name == "Ayesha Khan" && bilal.name == "Bilal KHAN" && ayesha.id != bilal.id
    ensures bilal in GetSuggestedConnections(ayesha, [ayesha, bilal], [])
    ensures Filter([ayesha, bilal], HasLastName(GetLastName(ayesha.name))) == [ayesha]
  {
    KhanIsSuggested(ayesha, bilal);
    KhanGroupLeavesOutUpperCase(ayesha, bilal);
    GetLastNameExample();
    assert bilal in [ayesha, bilal];
  }
}
