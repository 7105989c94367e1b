/** An edge location (models/edge_node.py): an id, a position fixed at set-up
    and the one cache it owns. */
module EdgeNodes {
  import Geometry
  import Caches

  datatype EdgeNode = EdgeNode(id: int, position: Geometry.Point, cache: Caches.Cache)
}
