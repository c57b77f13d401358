/** Values shared by every part of the simulation. */
module Requests {

  /** An optional value, as `std::optional` holds one. */
  datatype Option<+T> = None | Some(value: T)

  /** One web request: source and destination addresses, service time in
      clock cycles, and the job class ('P' processing, 'S' streaming). */
  datatype Request = Request(ipIn: string, ipOut: string, timeRequired: int, jobType: char)
}
