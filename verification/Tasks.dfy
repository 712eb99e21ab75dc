/** The unit of crawl work that the scheduler orders (`model.LinkToken`). */
module Tasks {

  // A link waiting to be crawled.  The source keeps the priority as a float64; here it is a
  // real number, so that comparison is a total order.
  datatype Task = Task(link: string, priority: real, depth: int, sameDomain: bool)

  // What the execution of a task returns.
  datatype CompletionState = Done | Canceled | Error

  // `x` is strictly closer than `y` to the end that a min level (or, if not `min`, a max level) keeps.
  predicate Better(min: bool, x: Task, y: Task) {
    if min then x.priority < y.priority else x.priority > y.priority
  }
}
