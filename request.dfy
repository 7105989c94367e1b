/** A client request (models/request.py): its id (the provider's id, which
    is what caches are keyed on) and time are fixed; resolution fills in the
    resource and accumulates the latency. */
module Requests {
  import opened Wrappers
  import opened Resources

  class Request {
    const id: string
    const executionTime: nat
    var latency: int
    var resource: Option<Resource>

    constructor (id: string, executionTime: nat)
      ensures this.id == id && this.executionTime == executionTime
      ensures latency == 0 && resource == None
    {
      this.id := id;
      this.executionTime := executionTime;
      latency := 0;
      resource := None;
    }
  }
}
