# Piper node editor: links and the node-type registry

This project models two parts of the Piper node editor.

The first is the link between two node attributes (`src/Link.cc`):
- which attributes a link is attached to (`from_`, `to_`);
- how pressing on a link and releasing it over an input rewires it;
- the S-curve drawn from the link's source to its destination or to the pointer;
- the spline that routes a link through a list of waypoints: its control points and the quadratic/cubic/quadratic segment structure.

The second is the node-type registry (`src/NodeCreator.cc`). It maps each type name to the attribute list of that type. It registers a type at most once (the first registration wins) and builds nodes of registered types.

Files:
- `optional.dfy`: the `Option` type, which stands for the source's null pointers.
- `geometry.dfy`: points over exact reals, path segments (`MoveTo`, `QuadTo`, `CubicTo`), the S-curve (`SimpleCurve`) and the control-point construction (`ControlPoints`).
- `spline.dfy`: the two loops of the spline builder as methods. Each is proved equal to a reference definition (`ControlPointList`, `SplinePath`), and lemmas state the shape of those definitions.
- `link.dfy`: the `Link` class and its event handlers. `Attributes` is the table of links each attribute holds. `Scene` is the registry of live links.
- `link_scenarios.dfy`: complete drag interactions on freshly built links.
- `node_creator.dfy`: the `NodeCreator` class.

Modelling choices:
- Attributes and links are named by numbers.
- `Attribute::connect` adds the link to the attribute's set; `Attribute::disconnect` removes it.
- The connector position of an attribute is a function parameter `pos`.
- "The input attribute under the pointer" is an `Option` parameter `hit`.
- The input's `accept` verdict is a `bool` parameter `accepts`.
- Chord lengths are supplied from outside: `ControlPoints` takes the two lengths directly, and the spline takes a distance function `dist`.

Three behaviours of the code that the model keeps:
- The spline builder has no guard for fewer than three waypoints; it does not report an error. The model makes `|waypoints| >= 3` a precondition.
- Releasing a link that has no destination over empty space calls `connectTo` on a null `to_`. The model requires `to` to be set when no input is hit.
- `src/Link.cc` gives an input attribute no single occupancy: connecting only adds the link to the attribute's set.

## Model

| member | source | states |
|---|---|---|
| Geometry.SimpleCurve | src/Link.cc:164-176 | the path is a move to `start` then one cubic ending at `end`; both controls are half-way across in x, the first at `start`'s height, the second at `end`'s |
| Geometry.SimpleCurveDegenerate | src/Link.cc:166-173 | a curve from a point to itself mentions only that point (zero-extent path, no failure) |
| Geometry.SimpleCurveReversed | src/Link.cc:166-169 | swapping start and end swaps the two control points |
| Geometry.ControlPoints | src/Link.cc:179-199 | `p1 - ctrl1 = fa (p2 - p0)` and `ctrl2 - p1 = fb (p2 - p0)` with `fa = t d01/(d01+d12)`, `fb = t d12/(d01+d12)` |
| Geometry.ScalingFactorsSum | src/Link.cc:187-188 | `fa + fb == t` |
| Geometry.ControlPointsSpanMiddle | src/Link.cc:187-198 | `ctrl2 - ctrl1 = t (p2 - p0)`, and `p1` lies on the segment from `ctrl1` to `ctrl2` at fraction `d01/(d01+d12)` in `[0, 1]` |
| Spline.ControlPointList | src/Link.cc:204-212 | reference control-point list; its length is `2 (n - 2)` for `n >= 3` waypoints and 0 otherwise |
| Spline.ControlPointListAt | src/Link.cc:206-212 | entries `2i` and `2i + 1` are the two control points of the triple starting at waypoint `i`, in triple order |
| Spline.ComputeControlPoints | src/Link.cc:204-212 | the first loop builds exactly the reference control-point list |
| Spline.CubicsAt | src/Link.cc:222-226 | cubic piece `j` uses controls `2j`, `2j + 1` of its slice and ends at its own waypoint |
| Spline.SplinePathShape | src/Link.cc:213-229 | `n` segments: move to waypoint 0, quad with control 0 into waypoint 1, cubic `k` with controls `2k - 3`, `2k - 2` into waypoint `k`, final quad with control `2n - 5` into the last waypoint |
| Spline.SplinePathVisitsWaypoints | src/Link.cc:217-229 | segment `k` ends at waypoint `k`; the path starts at the first waypoint and ends at the last |
| Spline.SplinePathCounts | src/Link.cc:217-229 | one move, two quadratic pieces, `n - 3` cubic pieces: `n - 1` curve pieces |
| Spline.AssemblePath | src/Link.cc:213-230 | the second loop, with its waypoint and control cursors in bounds, builds exactly the reference path |
| Links.DetachIdempotent | src/Link.cc:75-86 | disconnecting a link from an attribute twice is the same as once |
| Links.DetachUndoesAttach | src/Link.cc:60-86 | disconnecting right after connecting restores every attribute's set, if the link was new there |
| Links.Scene.RemoveLink | src/Link.cc:36-37 | the scene's registry loses exactly this link |
| Links.Link.ConnectFrom | src/Link.cc:60-64 | `from` becomes the attribute, which gains the link; nothing else changes |
| Links.Link.ConnectTo | src/Link.cc:67-72 | `to` becomes the attribute, which gains the link, and the path is the S-curve between the two connectors |
| Links.Link.Disconnect | src/Link.cc:75-86 | the link leaves every end that is set; `from`/`to` are unchanged; no other attribute changes |
| Links.Link.IsConnected | src/Link.cc:89-96 | false exactly when both ends are null |
| Links.ConnectedWhileAttached | src/Link.cc:89-96 | a bound or dragging link is connected; a freshly constructed link is not |
| Links.Link.UpdatePath | src/Link.cc:99-102 | the path is the S-curve from the source connector to the destination connector |
| Links.Link.UpdatePathTo | src/Link.cc:105-109 | the path is the S-curve from the source connector to the given point |
| Links.Link.RefreshPath | src/Link.cc:52-55 | a link with a destination redraws its curve; one without keeps its path |
| Links.Link.MousePress | src/Link.cc:112-121 | selects the link, removes it from `to`'s set only, draws to the pointer; a bound link becomes a dragging one |
| Links.Link.MouseMove | src/Link.cc:132-136 | the loose end follows the pointer |
| Links.Link.MouseRelease | src/Link.cc:139-161 | accepting input: `to` bound to it; rejecting input: nothing changes, a dragging link stays unbound; no input: re-attached to the old `to` and bound again |
| Links.Link.MouseReleaseRestoring | src/Link.cc:149-160 | corrected release: any release not over an accepting input re-attaches to the old `to`, so a drag always ends bound |
| Links.Link.DrawSplines | src/Link.cc:202-231 | the path becomes the reference spline through the waypoints |
| Links.Link.Destroy | src/Link.cc:33-38 | the link leaves both ends and the scene's registry; if only its ends held it, afterwards no attribute does |
| LinkScenarios.BoundLink | src/Link.cc:60-72 | connecting from `s` then to `k` yields a bound link drawn between their connectors |
| LinkScenarios.RejectedDropAsWritten | src/Link.cc:150-156 | press then release over a rejecting input: `to` still names the old destination, which no longer holds the link |
| LinkScenarios.RejectedDropRestoring | src/Link.cc:149-160 | with the corrected release, the same interaction ends bound to the old destination with the original curve |
| LinkScenarios.DropOnEmptySpace | src/Link.cc:157-160 | press, move, release over nothing: bound to the same destination with the same path as before the drag |
| LinkScenarios.DropOnAcceptingInput | src/Link.cc:150-155 | press, release over another accepting input: the link moves there; the old destination no longer holds it, the source still does |
| LinkScenarios.DestroyBoundLink | src/Link.cc:33-38 | destroying a bound link leaves no attribute at all holding it and removes it from the scene |
| NodeCreation.NodeCreator.AddItem | src/NodeCreator.cc:13-22 | a new type is inserted with its attributes; a known type leaves the map unchanged; keys only grow and existing entries keep their values |
| NodeCreation.NodeCreator.CreateItem | src/NodeCreator.cc:24-42 | unknown type: no node; known type: a node with the given type, name, stage and position and the registered attributes in order; the registry is only read |
| NodeCreation.FirstRegistrationWins | src/NodeCreator.cc:13-42 | registering a type twice keeps the first list, and nodes of that type get it |
| NodeCreation.UnknownTypeYieldsNothing | src/NodeCreator.cc:26-31 | a type that was never registered yields no node |

## Findings

| source | as written | input that shows it | evidently intended | confidence | as-written member | corrected member |
|---|---|---|---|---|---|---|
| src/Link.cc:150-156 | releasing over an input whose `accept` rejects the source does nothing. The press had already removed the link from `to_`. So `to_` still points at the old destination, which no longer holds the link, and the link is still drawn to it. | a link bound from `s` to `k`; press on it; release over an input `r` that rejects `s` | re-attach to the old destination, as the "reset connection" branch does when no input is hit | medium; not executed | LinkScenarios.RejectedDropAsWritten | Links.Link.MouseReleaseRestoring |

`Links.Link.MouseRelease` stays the faithful model of the handler. `Links.Link.MouseReleaseRestoring` agrees with it on the accepting and the empty-space branches. Its contract says that every drag of a bound link ends bound.

## Left out

- Painting: pens, brushes, colours, `setPen`, `setZValue` and the base-class paint call. Also the selectable and focusable flags set in the constructor. The `selected` flag set on a press is kept as a field.
- The highlight and unhighlight broadcasts to the scene's nodes on press and release. They are a visual cue, and `Node` and `Scene` are not part of this model.
- Scene hit-testing and the cast to an input attribute. `scene()->itemAt` and `qgraphicsitem_cast` are replaced by the `hit` parameter.
- `Attribute::accept` and `Attribute::connectorPos` are not part of this model. They are the parameters `accepts` and `pos`, and nothing about them is proved.
- `Attribute::connect` and `Attribute::disconnect` are not part of this model. They are assumed to add the link to, and remove it from, the attribute's set.
- `Scene::removeLink` is not part of this model. It is modelled as removal from a set of link numbers.
- The square roots and powers that compute chord lengths, and `double` rounding. Coordinates are exact reals and the lengths come from outside.
- Links.Link.DrawSplines: requires no three consecutive coincident waypoints (a zero denominator in the source) and at least three waypoints (the source dereferences past the end of its lists otherwise).
- Links.Link.MousePress: requires both ends to be set, because the source dereferences `to_` and `from_` without a check.
- Links.Link.MouseRelease: requires `to` when no input is hit and `from` when a connection is made, because the source dereferences both without a check.
- Links.Link.Bound: treats a link whose two ends are the same attribute as not bound. The model assumes the two ends are different attributes; the code does not enforce it.
- The `NodeCreator::instance()` singleton: the registry is an ordinary object.
- The `qDebug` messages.
- Heap allocation of the new `Node` and `Node::addAttribute`: creating a node appends each attribute to the node's list. `AttributeInfo` and `Node` are declared in headers that are not part of this model; the registry passes `AttributeInfo` values on without reading them, so the fields `name`, `dataType` and `kind` here are placeholders.
