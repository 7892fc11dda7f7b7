/** The database behind the route handlers, as in-memory tables: one
    sequence of records per model, in insertion order. Record ids are
    unique in every table and e-mail addresses are unique among users, as
    the schema's unique constraints demand. */
module Store {
  import opened Common
  import opened Entities

  /** No two records share a key. */
  predicate UniqueKeys<T>(s: seq<T>, key: T -> string) {
    forall i, j :: 0 <= i < j < |s| ==> key(s[i]) != key(s[j])
  }

  /** Some record has key `k`. */
  predicate HasKey<T>(s: seq<T>, key: T -> string, k: string) {
    exists i :: 0 <= i < |s| && key(s[i]) == k
  }

  /** Appending a record with a new key keeps the keys unique. */
  lemma UniqueKeysAppend<T>(s: seq<T>, key: T -> string, x: T)
    requires UniqueKeys(s, key) && !HasKey(s, key, key(x))
    ensures UniqueKeys(s + [x], key)
  {
    assert forall i :: 0 <= i < |s| ==> (s + [x])[i] == s[i];
  }

  /** Replacing a record by one with the same key keeps the keys unique. */
  lemma UniqueKeysUpdate<T>(s: seq<T>, key: T -> string, i: nat, x: T)
    requires UniqueKeys(s, key) && i < |s| && key(x) == key(s[i])
    ensures UniqueKeys(s[i := x], key)
  {
  }

  /** In a table with unique keys, the record with a given key is the only
      one: every other record has a different key. */
  lemma UniqueKeyHolder<T>(s: seq<T>, key: T -> string, i: nat)
    requires UniqueKeys(s, key) && i < |s|
    ensures forall j :: 0 <= j < |s| && j != i ==> key(s[j]) != key(s[i])
  {
    forall j | 0 <= j < |s| && j != i
      ensures key(s[j]) != key(s[i])
    {
      if j < i {} else {}
    }
  }

  class Database {
    var users: seq<User>
    var courses: seq<Course>
    var assignments: seq<Assignment>
    var grades: seq<Grade>
    var goals: seq<Goal>
    var events: seq<Event>

    ghost predicate Valid()
      reads this
    {
      UniqueKeys(users, (u: User) => u.id) && UniqueKeys(users, (u: User) => u.email)
      && UniqueKeys(courses, (c: Course) => c.id)
      && UniqueKeys(assignments, (a: Assignment) => a.id)
      && UniqueKeys(grades, (g: Grade) => g.id)
      && UniqueKeys(goals, (g: Goal) => g.id)
      && UniqueKeys(events, (e: Event) => e.id)
    }

    /** An empty database. */
    constructor ()
      ensures Valid()
      ensures users == [] && courses == [] && assignments == [] && grades == [] && goals == [] && events == []
    {
      users, courses, assignments, grades, goals, events := [], [], [], [], [], [];
    }
  }
}
