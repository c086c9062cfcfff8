/**
 * Whole interactions with a link, from a fresh link and an empty attribute
 * table: bind it from a source to a destination, press on it, release it.
 */
module LinkScenarios {
  import opened Optional
  import opened Geometry
  import opened Links

  /** A fresh link bound from `s` to `k`, as the editor leaves it after a completed drag. */
  method BoundLink(l: LinkId, s: AttributeId, k: AttributeId, pos: Positions) returns (link: Link, attrs: Attributes)
    requires s != k
    ensures fresh(link) && fresh(attrs) && link.id == l
    ensures link.Bound(attrs) && link.from == Some(s) && link.to == Some(k)
    ensures link.path == SimpleCurve(pos(s), pos(k))
  {
    attrs := new Attributes();
    link := new Link(l);
    link.ConnectFrom(s, attrs);
    link.ConnectTo(k, attrs, pos);
  }

  /**
   * Press on a bound link and release it over an input that rejects the
   * source, with the release handler as written: the link still names its
   * old destination, which no longer holds it.
   */
  method RejectedDropAsWritten(s: AttributeId, k: AttributeId, r: AttributeId, p: Point, pos: Positions)
    returns (to: Option<AttributeId>, heldByDestination: bool)
    requires s != k
    ensures to == Some(k) && !heldByDestination
  {
    var link, attrs := BoundLink(0, s, k, pos);
    link.MousePress(p, attrs, pos);
    link.MouseRelease(Some(r), false, attrs, pos);
    to := link.to;
    heldByDestination := link.id in attrs.LinksAt(k);
  }

  /** The same interaction with the restoring release: the link is bound to its old destination again. */
  method RejectedDropRestoring(s: AttributeId, k: AttributeId, r: AttributeId, p: Point, pos: Positions)
    returns (to: Option<AttributeId>, heldByDestination: bool, path: Path)
    requires s != k
    ensures to == Some(k) && heldByDestination
    ensures path == SimpleCurve(pos(s), pos(k))
  {
    var link, attrs := BoundLink(0, s, k, pos);
    link.MousePress(p, attrs, pos);
    link.MouseReleaseRestoring(Some(r), false, attrs, pos);
    to := link.to;
    heldByDestination := link.id in attrs.LinksAt(k);
    path := link.path;
  }

  /** Dragging a bound link to empty space puts it back exactly as it was, path included. */
  method DropOnEmptySpace(s: AttributeId, k: AttributeId, p: Point, pos: Positions)
    returns (before: Path, after: Path, to: Option<AttributeId>, heldByDestination: bool)
    requires s != k
    ensures after == before
    ensures to == Some(k) && heldByDestination
  {
    var link, attrs := BoundLink(0, s, k, pos);
    before := link.path;
    link.MousePress(p, attrs, pos);
    link.MouseMove(p, pos);
    link.MouseRelease(None, false, attrs, pos);
    after := link.path;
    to := link.to;
    heldByDestination := link.id in attrs.LinksAt(k);
  }

  /** Dragging a bound link onto another accepting input moves its destination there. */
  method DropOnAcceptingInput(s: AttributeId, k1: AttributeId, k2: AttributeId, p: Point, pos: Positions)
    returns (to: Option<AttributeId>, heldBySource: bool, heldByOld: bool, heldByNew: bool)
    requires s != k1 && s != k2 && k1 != k2
    ensures to == Some(k2)
    ensures heldBySource && !heldByOld && heldByNew
  {
    var link, attrs := BoundLink(0, s, k1, pos);
    link.MousePress(p, attrs, pos);
    link.MouseRelease(Some(k2), true, attrs, pos);
    to := link.to;
    heldBySource := link.id in attrs.LinksAt(s);
    heldByOld := link.id in attrs.LinksAt(k1);
    heldByNew := link.id in attrs.LinksAt(k2);
  }

  /** Destroying a bound link leaves no attribute holding it and takes it out of the scene. */
  method DestroyBoundLink(l: LinkId, s: AttributeId, k: AttributeId, others: set<LinkId>, pos: Positions)
    returns (table: Table, live: set<LinkId>)
    requires s != k
    ensures forall a: AttributeId :: l !in AttachedTo(table, a)
    ensures live == others - {l}
  {
    var link, attrs := BoundLink(l, s, k, pos);
    var scene := new Scene(others);
    assert link.HeldOnlyByEnds(attrs);
    link.Destroy(attrs, scene);
    table := attrs.attached;
    forall a: AttributeId ensures l !in AttachedTo(table, a) {
      assert attrs.LinksAt(a) == AttachedTo(table, a);
    }
    live := scene.links;
  }
}
