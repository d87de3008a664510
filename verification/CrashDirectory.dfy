/** One POSIX directory as a crash sees it.

  `live` is what every running process reads.  `lost` holds the superseded bindings that no
  successful directory fsync has ruled out yet: after a power loss each name independently
  comes back with its live binding or with one of its lost ones.  This is more adversarial
  than a single "durable" copy, because every intermediate value can resurface.
*/
module CrashDirectory {
  import opened Optional

  /** How a system call ends: it returned, it raised an I/O error, or the process died in it. */
  datatype Outcome = Done | Failed | Killed

  /** A call that did not return. */
  datatype Trouble<Call> = Trouble(call: Call, how: Outcome)

  /** A step that stops at its first trouble, which was in one of `calls`. */
  ghost predicate Noted<Call>(before: seq<Trouble<Call>>, after: seq<Trouble<Call>>, calls: set<Call>, o: Outcome) {
    if o == Done then after == before
    else exists call | call in calls :: after == before + [Trouble(call, o)]
  }

  datatype Disk<N(==), C(==)> = Disk(live: map<N, C>, lost: set<(N, Option<C>)>)

  /** `n` can be bound to `v` now, or after a power loss. */
  ghost predicate May<N, C>(d: Disk<N, C>, n: N, v: Option<C>) {
    v == Lookup(d.live, n) || (n, v) in d.lost
  }

  /** `os.replace` of a fully written file onto `n`. */
  ghost function Replaced<N, C>(d: Disk<N, C>, n: N, c: C): Disk<N, C> {
    Disk(d.live[n := c], d.lost + {(n, Lookup(d.live, n))})
  }

  ghost function Unlinked<N, C>(d: Disk<N, C>, n: N): Disk<N, C> {
    Disk(d.live - {n}, d.lost + {(n, Lookup(d.live, n))})
  }

  /** A directory fsync that returned success. */
  ghost function Synced<N, C>(d: Disk<N, C>): Disk<N, C> {
    Disk(d.live, {})
  }

  /** Background write-back, or a directory fsync that did not return success. */
  ghost predicate WrittenBack<N, C>(d: Disk<N, C>, d': Disk<N, C>) {
    d'.live == d.live && d'.lost <= d.lost
  }

  ghost predicate PowerLoss<N(!new), C(!new)>(d: Disk<N, C>, d': Disk<N, C>) {
    d'.lost == {} && forall n :: May(d, n, Lookup(d'.live, n))
  }

  /** The two ways a disk changes without any call of the program. */
  ghost predicate Disturbed<N(!new), C(!new)>(d: Disk<N, C>, d': Disk<N, C>) {
    WrittenBack(d, d') || PowerLoss(d, d')
  }

  lemma DisturbedShrinks<N(!new), C(!new)>(d: Disk<N, C>, d': Disk<N, C>)
    requires Disturbed(d, d')
    ensures d'.lost <= d.lost
    ensures d'.live == d.live || d'.lost == {}
    ensures forall n, v :: May(d', n, v) ==> May(d, n, v)
  {
  }
}
