/** enum procstate of kernel/proc.h with the diagram of its states, and the usual option type. */
module ProcTypes {
  datatype ProcState = UNUSED | USED | SLEEPING | RUNNABLE | RUNNING | ZOMBIE

  /** The edges of the diagram. */
  predicate Edge(from: ProcState, to: ProcState) {
    match from
    case UNUSED => to == USED
    case USED => to == RUNNABLE || to == UNUSED
    case RUNNABLE => to == RUNNING
    case RUNNING => to == RUNNABLE || to == SLEEPING || to == ZOMBIE
    case SLEEPING => to == RUNNABLE
    case ZOMBIE => to == UNUSED
  }

  /** A step along an edge: the process, and where to. */
  datatype Move = Stay | Go(q: nat, to: ProcState) {
    function Of(q: nat, from: ProcState): (to: ProcState) {
      if Go? && this.q == q then this.to else from
    }
  }

  datatype Option<T> = None | Some(value: T)
}
