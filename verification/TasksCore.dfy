/** Task states (src/tasks_core.py). */
module TasksCore {
  datatype Status = Pending | Running | Completed | Failed | Killed

  predicate IsTerminal(s: Status) {
    s == Completed || s == Failed || s == Killed
  }
}
