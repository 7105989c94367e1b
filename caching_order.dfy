/** A scheduled pre-fetch instruction (models/caching_order.py). The
    provider is represented by its id, which is what request lookups use. */
module CachingOrders {
  import opened Wrappers
  import opened EdgeNodes

  datatype OrderType = STANDARD | COOPERATIVE

  datatype CachingOrder = CachingOrder(
    orderType: OrderType,
    cacheWorkerId: int,
    executionTime: nat,
    expirationTime: nat,
    providerId: string,
    requestExecutionTime: Option<nat>,
    cooperatorEdgeNode: Option<EdgeNode>,
    isCooperatorPointer: bool)

  /** An order built with the constructor's defaults: STANDARD, no
      cooperator, no request time, and not a cooperation donor. */
  function NewCachingOrder(cacheWorkerId: int, executionTime: nat, expirationTime: nat,
                           providerId: string): (o: CachingOrder)
    ensures o.orderType == STANDARD && !o.isCooperatorPointer
    ensures o.cooperatorEdgeNode == None && o.requestExecutionTime == None
    ensures o.cacheWorkerId == cacheWorkerId && o.providerId == providerId
    ensures o.executionTime == executionTime && o.expirationTime == expirationTime
  {
    CachingOrder(STANDARD, cacheWorkerId, executionTime, expirationTime, providerId, None, None, false)
  }
}
