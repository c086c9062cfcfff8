/**
 * A link between two node attributes and the drag interaction that rewires
 * it. Attributes and links are named by identifiers; the table of which
 * links each attribute holds is an object of its own, the one that the
 * attributes' connect and disconnect operations change.
 */
module Links {
  import opened Optional
  import opened Geometry
  import Spline

  type AttributeId = nat
  type LinkId = nat

  /** Where an attribute's connector is drawn (supplied by the node layout). */
  type Positions = AttributeId -> Point

  type Table = map<AttributeId, set<LinkId>>

  /** The links attached to attribute `a`; an attribute never seen holds none. */
  function AttachedTo(m: Table, a: AttributeId): set<LinkId>
  {
    if a in m then m[a] else {}
  }

  /** Attribute `a` registers link `l`; no other attribute changes. */
  function Attach(m: Table, a: AttributeId, l: LinkId): (r: Table)
    ensures forall b :: AttachedTo(r, b) == if b == a then AttachedTo(m, a) + {l} else AttachedTo(m, b)
  {
    m[a := AttachedTo(m, a) + {l}]
  }

  /** Attribute `a` forgets link `l` (nothing happens if it did not hold it); no other attribute changes. */
  function Detach(m: Table, a: AttributeId, l: LinkId): (r: Table)
    ensures forall b :: AttachedTo(r, b) == if b == a then AttachedTo(m, a) - {l} else AttachedTo(m, b)
  {
    m[a := AttachedTo(m, a) - {l}]
  }

  /** Detaching from an absent (null) attribute does nothing. */
  function DetachFrom(m: Table, a: Option<AttributeId>, l: LinkId): Table
  {
    if a.Some? then Detach(m, a.value, l) else m
  }

  /** Disconnecting a second time changes nothing. */
  lemma DetachIdempotent(m: Table, a: AttributeId, l: LinkId)
    ensures Detach(Detach(m, a, l), a, l) == Detach(m, a, l)
  {
    var once := Detach(m, a, l);
    assert AttachedTo(once, a) == AttachedTo(m, a) - {l};
    assert AttachedTo(once, a) - {l} == AttachedTo(once, a);
  }

  /** Disconnecting right after connecting restores what every attribute held, if the link was new there. */
  lemma DetachUndoesAttach(m: Table, a: AttributeId, l: LinkId)
    requires l !in AttachedTo(m, a)
    ensures forall b :: AttachedTo(Detach(Attach(m, a, l), a, l), b) == AttachedTo(m, b)
  {
  }

  /** A link that some attribute holds as one of its ends counts as connected. */
  lemma ConnectedWhileAttached(link: Link, attrs: Attributes)
    requires link.Bound(attrs) || link.Dragging(attrs)
    ensures link.IsConnected()
  {
  }

  /** The attached-link sets of all attributes. */
  class Attributes {
    var attached: Table

    constructor ()
      ensures attached == map[]
    {
      attached := map[];
    }

    function LinksAt(a: AttributeId): set<LinkId>
      reads this
    {
      AttachedTo(attached, a)
    }

    method Connect(a: AttributeId, l: LinkId)
      modifies this
      ensures attached == Attach(old(attached), a, l)
    {
      attached := Attach(attached, a, l);
    }

    method Disconnect(a: AttributeId, l: LinkId)
      modifies this
      ensures attached == Detach(old(attached), a, l)
    {
      attached := Detach(attached, a, l);
    }
  }

  /** The scene's registry of live links. */
  class Scene {
    var links: set<LinkId>

    constructor (links: set<LinkId>)
      ensures this.links == links
    {
      this.links := links;
    }

    method RemoveLink(l: LinkId)
      modifies this
      ensures links == old(links) - {l}
    {
      links := links - {l};
    }
  }

  class Link {
    const id: LinkId
    var from: Option<AttributeId>
    var to: Option<AttributeId>
    var path: Path
    var selected: bool

    constructor (id: LinkId)
      ensures this.id == id && from == None && to == None && path == [] && !selected
      ensures !IsConnected()
    {
      this.id := id;
      from, to, path, selected := None, None, [], false;
    }

    /** Both ends are set and are the only attributes that hold this link. */
    ghost predicate Bound(attrs: Attributes)
      reads this, attrs
    {
      && from.Some? && to.Some? && from != to
      && forall a: AttributeId :: id in attrs.LinksAt(a) <==> (Some(a) == from || Some(a) == to)
    }

    /** Mid-drag: `to` still names the old destination, but only `from` holds this link. */
    ghost predicate Dragging(attrs: Attributes)
      reads this, attrs
    {
      && from.Some? && to.Some? && from != to
      && forall a: AttributeId :: id in attrs.LinksAt(a) <==> Some(a) == from
    }

    /** No attribute other than the two ends holds this link. */
    ghost predicate HeldOnlyByEnds(attrs: Attributes)
      reads this, attrs
    {
      forall a: AttributeId :: id in attrs.LinksAt(a) ==> (Some(a) == from || Some(a) == to)
    }

    method ConnectFrom(a: AttributeId, attrs: Attributes)
      modifies this`from, attrs
      ensures from == Some(a)
      ensures attrs.attached == Attach(old(attrs.attached), a, id)
    {
      from := Some(a);
      attrs.Connect(a, id);
    }

    method ConnectTo(a: AttributeId, attrs: Attributes, pos: Positions)
      requires from.Some?
      modifies this`to, this`path, attrs
      ensures to == Some(a)
      ensures attrs.attached == Attach(old(attrs.attached), a, id)
      ensures path == SimpleCurve(pos(from.value), pos(a))
    {
      to := Some(a);
      attrs.Connect(a, id);
      UpdatePath(pos);
    }

    /** Detaches this link from each end that is set; the ends themselves are kept. */
    method Disconnect(attrs: Attributes)
      modifies attrs
      ensures attrs.attached == DetachFrom(DetachFrom(old(attrs.attached), from, id), to, id)
      ensures forall a: AttributeId :: id in attrs.LinksAt(a) <==> (id in old(attrs.LinksAt(a)) && Some(a) != from && Some(a) != to)
    {
      if from.Some? {
        attrs.Disconnect(from.value, id);
      }
      if to.Some? {
        attrs.Disconnect(to.value, id);
      }
    }

    /** False exactly when neither end is set. */
    function IsConnected(): (r: bool)
      reads this
      ensures !r <==> from.None? && to.None?
    {
      if from.None? && to.None? then false else true
    }

    /** Redraws the curve between the two bound ends. */
    method UpdatePath(pos: Positions)
      requires from.Some? && to.Some?
      modifies this`path
      ensures path == SimpleCurve(pos(from.value), pos(to.value))
    {
      UpdatePathTo(pos(to.value), pos);
    }

    /** Redraws the curve from the source end to a free point. */
    method UpdatePathTo(end: Point, pos: Positions)
      requires from.Some?
      modifies this`path
      ensures path == SimpleCurve(pos(from.value), end)
    {
      path := SimpleCurve(pos(from.value), end);
    }

    /** Before painting, a link with a destination redraws its curve. */
    method RefreshPath(pos: Positions)
      requires to.Some? ==> from.Some?
      modifies this`path
      ensures to.Some? ==> path == SimpleCurve(pos(from.value), pos(to.value))
      ensures to.None? ==> path == old(path)
    {
      if to.Some? {
        UpdatePath(pos);
      }
    }

    /**
     * Pressing on the link selects it, detaches it from its destination only
     * and pulls its loose end to the pointer: a bound link starts a drag.
     */
    method MousePress(p: Point, attrs: Attributes, pos: Positions)
      requires from.Some? && to.Some?
      modifies this`selected, this`path, attrs
      ensures selected
      ensures attrs.attached == Detach(old(attrs.attached), to.value, id)
      ensures path == SimpleCurve(pos(from.value), p)
      ensures old(Bound(attrs)) ==> Dragging(attrs)
    {
      selected := true;
      attrs.Disconnect(to.value, id);
      UpdatePathTo(p, pos);
    }

    /** Moving the pointer drags the loose end along. */
    method MouseMove(p: Point, pos: Positions)
      requires from.Some?
      modifies this`path
      ensures path == SimpleCurve(pos(from.value), p)
    {
      UpdatePathTo(p, pos);
    }

    /**
     * Releasing the pointer. `hit` is the input attribute under the pointer,
     * if any, and `accepts` that input's verdict on this link's source. Over
     * an accepting input the link binds to it; over a rejecting input nothing
     * happens; over no input the link re-attaches to its old destination.
     */
    method MouseRelease(hit: Option<AttributeId>, accepts: bool, attrs: Attributes, pos: Positions)
      requires hit.None? ==> to.Some?
      requires hit.None? || accepts ==> from.Some?
      modifies this`to, this`path, attrs
      ensures hit.Some? && accepts ==>
                to == hit && attrs.attached == Attach(old(attrs.attached), hit.value, id)
                && path == SimpleCurve(pos(from.value), pos(hit.value))
      ensures hit.Some? && !accepts ==>
                to == old(to) && attrs.attached == old(attrs.attached) && path == old(path)
      ensures hit.None? ==>
                to == old(to) && attrs.attached == Attach(old(attrs.attached), to.value, id)
                && path == SimpleCurve(pos(from.value), pos(to.value))
      ensures old(Dragging(attrs)) && (hit.None? || (accepts && hit != from)) ==> Bound(attrs)
      ensures old(Dragging(attrs)) && hit.Some? && !accepts ==> Dragging(attrs) && !Bound(attrs)
    {
      if hit.Some? {
        if accepts {
          ConnectTo(hit.value, attrs, pos);
        }
      } else {
        ConnectTo(to.value, attrs, pos);
      }
    }

    /**
     * Releasing the pointer, with the old destination restored whenever the
     * link is not bound to an accepting input: a drag always ends bound.
     */
    method MouseReleaseRestoring(hit: Option<AttributeId>, accepts: bool, attrs: Attributes, pos: Positions)
      requires !(hit.Some? && accepts) ==> to.Some?
      requires from.Some?
      modifies this`to, this`path, attrs
      ensures hit.Some? && accepts ==>
                to == hit && attrs.attached == Attach(old(attrs.attached), hit.value, id)
                && path == SimpleCurve(pos(from.value), pos(hit.value))
      ensures !(hit.Some? && accepts) ==>
                to == old(to) && attrs.attached == Attach(old(attrs.attached), to.value, id)
                && path == SimpleCurve(pos(from.value), pos(to.value))
      ensures old(Dragging(attrs)) && (hit.Some? && accepts ==> hit != from) ==> Bound(attrs)
    {
      if hit.Some? && accepts {
        ConnectTo(hit.value, attrs, pos);
      } else {
        ConnectTo(to.value, attrs, pos);
      }
    }

    /** Rebuilds the path as the spline through `waypoints` with tension `t`. */
    method DrawSplines(waypoints: seq<Point>, t: real, dist: Spline.Distance)
      requires |waypoints| >= 3 && Spline.Admissible(waypoints, dist)
      modifies this`path
      ensures path == Spline.SplinePath(waypoints, Spline.ControlPointList(waypoints, t, dist))
    {
      var controls := Spline.ComputeControlPoints(waypoints, t, dist);
      path := Spline.AssemblePath(waypoints, controls);
    }

    /**
     * Tearing the link down: it leaves both ends and the scene's registry.
     * Afterwards no attribute holds it, provided only its ends did before.
     */
    method Destroy(attrs: Attributes, scene: Scene)
      modifies attrs, scene
      ensures attrs.attached == DetachFrom(DetachFrom(old(attrs.attached), from, id), to, id)
      ensures scene.links == old(scene.links) - {id}
      ensures old(HeldOnlyByEnds(attrs)) ==> forall a: AttributeId :: id !in attrs.LinksAt(a)
    {
      Disconnect(attrs);
      scene.RemoveLink(id);
    }
  }
}
