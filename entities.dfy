/** The records of the data model, as the route handlers store them and the
    pages receive them. Enumerations (assignment type, priority, goal
    category, event type) stay strings, as they are in the database; the
    schemas decide which strings are accepted. */
module Entities {
  import opened Common

  datatype User = User(id: Id, name: string, email: string, password: string)

  /** The user as registration returns it: every field but the password. */
  datatype PublicUser = PublicUser(id: Id, name: string, email: string)

  /** A course. `assignments` is the relation the courses endpoint
      includes; it is absent (`None`) when not loaded. */
  datatype Course = Course(
    id: Id,
    userId: Id,
    name: string,
    code: string,
    credits: int,
    assignments: Option<seq<Assignment>>)

  datatype Assignment = Assignment(
    id: Id,
    userId: Id,
    courseId: Id,
    title: string,
    description: Option<string>,
    kind: string,
    dueDate: Timestamp,
    points: int,
    completed: bool,
    priority: string,
    createdAt: Timestamp)

  datatype Grade = Grade(
    id: Id,
    userId: Id,
    assignmentId: Id,
    courseId: Id,
    score: real,
    points: real,
    percentage: real,
    letterGrade: Option<string>,
    feedback: Option<string>,
    createdAt: Timestamp)

  datatype Goal = Goal(
    id: Id,
    userId: Id,
    title: string,
    description: Option<string>,
    category: string,
    targetDate: Option<Timestamp>,
    priority: string,
    completed: bool,
    progress: int,
    createdAt: Timestamp)

  datatype Event = Event(
    id: Id,
    userId: Id,
    title: string,
    description: Option<string>,
    kind: string,
    date: Timestamp,
    time: Option<string>,
    duration: int,
    createdAt: Timestamp)
}
