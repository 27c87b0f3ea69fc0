/** The return codes a locker or the main thread puts in an answer message. */
module Answers {
  datatype Rc = Ok | Enqueued | Busy | Impossible | CantWait | WaitResource | InvalidResourceName
}
