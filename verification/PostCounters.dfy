/** change_post_counter: one statement, skipped when a decrement finds the counter at zero. */
module PostCounters {
  type Id = int

  function Change(counts: map<Id, int>, post: Id, delta: int): map<Id, int> {
    if post in counts && (delta < 0 ==> counts[post] > 0) then counts[post := counts[post] + delta] else counts
  }

  /** read_post_counter */
  function Read(counts: map<Id, int>, post: Id): int {
    if post in counts then counts[post] else 0
  }
}
