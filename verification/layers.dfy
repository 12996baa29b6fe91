/** The layer tree a parsed character document carries, and its flattening
    into the drawable layers in depth-first order. */
module Layers {
  import opened Wrappers

  datatype Point = Point(x: real, y: real)
  datatype Size = Size(width: real, height: real)

  /** One layer record: a "group" layer carries its sub-layers in
      `children`, a pixel layer carries its placement and image file. A
      record without a child list has `children == []`: descending into an
      empty list emits nothing, so the two are indistinguishable to the
      flattening. */
  datatype Layer = Layer(
    name: string,
    kind: string,
    path: string,
    position: Option<Point>,
    dimensions: Option<Size>,
    imagePath: Option<string>,
    children: seq<Layer>)

  predicate IsGroup(l: Layer) {
    l.kind == "group"
  }

  /** Every node of the forest, each before its descendants, siblings in
      order. */
  function Preorder(layers: seq<Layer>): (r: seq<Layer>)
    ensures |r| >= |layers|
    decreases layers
  {
    if |layers| == 0 then []
    else
      var l := layers[0];
      var below := Preorder(l.children);
      [l] + below + Preorder(layers[1..])
  }

  /** The layers of `ls` that are not groups, in order. */
  function Drawable(ls: seq<Layer>): (r: seq<Layer>)
    ensures |r| <= |ls|
    ensures forall i :: 0 <= i < |r| ==> !IsGroup(r[i])
    ensures forall l :: l in r <==> l in ls && !IsGroup(l)
  {
    if |ls| == 0 then []
    else (if IsGroup(ls[0]) then [] else [ls[0]]) + Drawable(ls[1..])
  }

  lemma {:induction false} DrawableAppend(a: seq<Layer>, b: seq<Layer>)
    ensures Drawable(a + b) == Drawable(a) + Drawable(b)
    decreases |a|
  {
    if |a| > 0 {
      assert (a + b)[1..] == a[1..] + b;
      DrawableAppend(a[1..], b);
    } else {
      assert a + b == b;
    }
  }

  /** Number of non-group nodes anywhere in the forest. */
  function DrawableCount(layers: seq<Layer>): (n: nat)
    decreases layers
  {
    if |layers| == 0 then 0
    else
      var l := layers[0];
      (if IsGroup(l) then 0 else 1)
      + DrawableCount(l.children)
      + DrawableCount(layers[1..])
  }

  /** `_flatten_layers`: walk the layers in order, emit every layer that
      is not a group, and descend into the children of any layer that has
      a child list. The descent passes the layer's path along, which the
      flattening itself never uses. */
  function Flatten(layers: seq<Layer>): (r: seq<Layer>)
    ensures forall i :: 0 <= i < |r| ==> !IsGroup(r[i])
    decreases layers
  {
    if |layers| == 0 then []
    else
      var l := layers[0];
      var own := if IsGroup(l) then [] else [l];
      var below := Flatten(l.children);
      own + below + Flatten(layers[1..])
  }

  /** Flattening emits exactly the non-group nodes of the pre-order walk:
      groups are dropped but their children are still visited. */
  lemma {:induction false} FlattenIsDrawablePreorder(layers: seq<Layer>)
    ensures Flatten(layers) == Drawable(Preorder(layers))
    decreases layers
  {
    if |layers| > 0 {
      var l := layers[0];
      var below := Preorder(l.children);
      FlattenIsDrawablePreorder(l.children);
      FlattenIsDrawablePreorder(layers[1..]);
      DrawableAppend([l] + below, Preorder(layers[1..]));
      DrawableAppend([l], below);
      assert Drawable([l]) == if IsGroup(l) then [] else [l] by {
        assert [l][1..] == [];
      }
    }
  }

  /** The flattened list has one entry per non-group node of the tree. */
  lemma {:induction false} FlattenCount(layers: seq<Layer>)
    ensures |Flatten(layers)| == DrawableCount(layers)
    decreases layers
  {
    if |layers| > 0 {
      var l := layers[0];
      FlattenCount(l.children);
      FlattenCount(layers[1..]);
    }
  }

  /** A flat list of layers without children flattens to its non-group
      members. */
  lemma {:induction false} FlattenLeaves(layers: seq<Layer>)
    requires forall i :: 0 <= i < |layers| ==> layers[i].children == []
    ensures Flatten(layers) == Drawable(layers)
    decreases |layers|
  {
    if |layers| > 0 {
      FlattenLeaves(layers[1..]);
    }
  }
}
