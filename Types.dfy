/** The record types shared by the timer, the dashboard and the insight service. */
module Types {

  /** A value that may be absent (`null` in the application). */
  datatype Option<+T> = None | Some(value: T)

  /** The fixed set of task classifications; `Distraction` is the one kept out of focus totals. */
  datatype TaskCategory = Study | Research | Coding | Writing | Distraction

  /** The string value of each enum member, as used for display and as a dictionary key. */
  function CategoryName(c: TaskCategory): string
  {
    match c
    case Study => "Study"
    case Research => "Research"
    case Coding => "Coding"
    case Writing => "Writing"
    case Distraction => "Distraction"
  }

  /** Distinct categories have distinct names, so keying a dictionary by name loses nothing. */
  lemma CategoryNameInjective(a: TaskCategory, b: TaskCategory)
    ensures CategoryName(a) == CategoryName(b) <==> a == b
  {
    if a != b {
      assert |CategoryName(a)| != |CategoryName(b)|;
    }
  }

  /**
   * One completed focus session. Times are epoch milliseconds, the duration is in seconds.
   * The session id is an opaque string supplied by whoever creates the record.
   */
  datatype FocusSession = FocusSession(
    id: string,
    startTime: int,
    endTime: Option<int>,
    duration: int,
    category: TaskCategory,
    taskName: string,
    distractions: nat)
}
