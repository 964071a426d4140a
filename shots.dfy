/** Shot records as they are stored in a detection file's `shots` list. */
module Shots {

  /** A presentation timestamp. The detection service delivers whole seconds
      plus microseconds, so a timestamp is modelled exactly as an integer
      number of microseconds. */
  type Pts = int

  /** One detected or corrected shot: `{shot_id, start_pts, end_pts}`. */
  datatype Shot = Shot(shotId: string, startPts: Pts, endPts: Pts)

  /** Each shot ends where the next one starts. */
  ghost predicate Contiguous(shots: seq<Shot>) {
    forall i :: 0 <= i < |shots| - 1 ==> shots[i].endPts == shots[i + 1].startPts
  }
}
