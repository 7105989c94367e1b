/** A cached content item (models/resource.py). */
module Resources {
  import opened Wrappers

  /** `frequency` counts successful lookups and `lastTimeRetrieved` is the
      time of the latest one (None until the first). Times are epoch
      milliseconds of the simulation, hence natural numbers. */
  datatype Resource = Resource(
    providerId: string,
    size: nat,
    storageTime: nat,
    expirationTime: nat,
    frequency: nat,
    lastTimeRetrieved: Option<nat>)

  /** A resource as the source's constructor builds it: never retrieved. */
  function NewResource(providerId: string, size: nat, storageTime: nat, expirationTime: nat): (r: Resource)
    ensures r.frequency == 0 && r.lastTimeRetrieved == None
    ensures r.providerId == providerId && r.size == size
    ensures r.storageTime == storageTime && r.expirationTime == expirationTime
  {
    Resource(providerId, size, storageTime, expirationTime, 0, None)
  }
}
