/** `Threelet.freeObjects` and `Threelet.disposeObject`
    (src/index.js:889-907): removing named children from a scene and
    releasing their GPU resources. */
module Scenes {
  import opened Common

  /** A material (`mat`) and its optional texture map (`mat.map`). */
  datatype Material = Material(id: nat, textureMap: Option<nat>)

  /** A child of the scene with the resources `disposeObject` looks at. */
  datatype Object3D = Object3D(name: string, geometry: Option<nat>, material: Option<Material>, texture: Option<nat>)

  /** One `dispose()` call. */
  datatype Disposal = GeometryDisposed(id: nat) | TextureDisposed(id: nat) | MaterialDisposed(id: nat)

  /** `disposeMaterial(mat)`: the map first, then the material. */
  function DisposeMaterial(mat: Material): seq<Disposal> {
    (if mat.textureMap.Some? then [TextureDisposed(mat.textureMap.value)] else []) + [MaterialDisposed(mat.id)]
  }

  /** `disposeObject(obj)`: geometry, material, texture, each if present. */
  function DisposeObject(obj: Object3D): seq<Disposal> {
    (if obj.geometry.Some? then [GeometryDisposed(obj.geometry.value)] else [])
    + (if obj.material.Some? then DisposeMaterial(obj.material.value) else [])
    + (if obj.texture.Some? then [TextureDisposed(obj.texture.value)] else [])
  }

  /** `disposeObject` releases exactly the object's geometry, its material, the
      material's map and the object's texture, each that is present, and the
      map of a material before the material itself. */
  lemma DisposeObjectReleasesItsResources(obj: Object3D)
    ensures forall g: nat :: GeometryDisposed(g) in DisposeObject(obj) <==> obj.geometry == Some(g)
    ensures forall m: nat :: MaterialDisposed(m) in DisposeObject(obj) <==> obj.material.Some? && obj.material.value.id == m
    ensures forall t: nat :: TextureDisposed(t) in DisposeObject(obj) <==>
              obj.texture == Some(t) || (obj.material.Some? && obj.material.value.textureMap == Some(t))
    ensures obj.material.Some? && obj.material.value.textureMap.Some? ==>
              exists a, b :: 0 <= a < b < |DisposeObject(obj)| &&
                DisposeObject(obj)[a] == TextureDisposed(obj.material.value.textureMap.value) &&
                DisposeObject(obj)[b] == MaterialDisposed(obj.material.value.id)
  {
    if obj.material.Some? && obj.material.value.textureMap.Some? {
      var pre := if obj.geometry.Some? then 1 else 0;
      assert DisposeObject(obj)[pre] == TextureDisposed(obj.material.value.textureMap.value);
      assert DisposeObject(obj)[pre + 1] == MaterialDisposed(obj.material.value.id);
    }
  }

  predicate Matches(obj: Object3D, prefix: string) {
    StartsWith(obj.name, prefix)
  }

  /** The children `freeObjects` keeps, in their order. */
  function Kept(children: seq<Object3D>, prefix: string): seq<Object3D> {
    if children == [] then []
    else (if Matches(children[0], prefix) then [] else [children[0]]) + Kept(children[1..], prefix)
  }

  /** The disposals of the removed children, last child first (the loop runs
      backwards). */
  function Released(children: seq<Object3D>, prefix: string): seq<Disposal> {
    if children == [] then []
    else Released(children[1..], prefix) + (if Matches(children[0], prefix) then DisposeObject(children[0]) else [])
  }

  /** Exactly the children whose name lacks the prefix are kept. */
  lemma {:induction false} KeptIsFilter(children: seq<Object3D>, prefix: string)
    ensures forall c :: c in Kept(children, prefix) <==> c in children && !Matches(c, prefix)
  {
    if children != [] {
      KeptIsFilter(children[1..], prefix);
      assert children == [children[0]] + children[1..];
    }
  }

  /** Freeing twice: the second call keeps every child and disposes nothing. */
  lemma {:induction false} FreeObjectsIsIdempotent(children: seq<Object3D>, prefix: string)
    ensures Kept(Kept(children, prefix), prefix) == Kept(children, prefix)
    ensures Released(Kept(children, prefix), prefix) == []
  {
    if children != [] {
      FreeObjectsIsIdempotent(children[1..], prefix);
      var k := Kept(children, prefix);
      var k1 := Kept(children[1..], prefix);
      if Matches(children[0], prefix) {
        assert k == [] + k1 == k1;
      } else {
        assert k == [children[0]] + k1;
        assert k != [] && k[0] == children[0] && k[1..] == k1;
        assert Kept(k, prefix) == [children[0]] + Kept(k1, prefix);
        assert Released(k, prefix) == Released(k1, prefix) + [];
      }
    }
  }

  lemma KeptStep(children: seq<Object3D>, prefix: string, i: nat)
    requires i < |children|
    ensures Kept(children[i..], prefix) ==
              (if Matches(children[i], prefix) then [] else [children[i]]) + Kept(children[i + 1..], prefix)
    ensures Released(children[i..], prefix) ==
              Released(children[i + 1..], prefix) + (if Matches(children[i], prefix) then DisposeObject(children[i]) else [])
  {
    assert children[i..][1..] == children[i + 1..];
  }

  /** `scene` with its list of children. */
  class Scene {
    var children: seq<Object3D>

    constructor (children: seq<Object3D>)
      ensures this.children == children
    {
      this.children := children;
    }
  }

  /** `freeObjects(scene, namePrefix)`: walks the children from last to first,
      removes each whose name starts with the prefix and disposes it; the
      sequence of `dispose()` calls is returned. */
  method FreeObjects(scene: Scene, prefix: string) returns (disposed: seq<Disposal>)
    modifies scene
    ensures scene.children == Kept(old(scene.children), prefix)
    ensures disposed == Released(old(scene.children), prefix)
  {
    ghost var s := scene.children;
    disposed := [];
    var i := |scene.children| - 1;
    while i >= 0
      invariant -1 <= i < |s|
      invariant scene.children == s[..i + 1] + Kept(s[i + 1..], prefix)
      invariant disposed == Released(s[i + 1..], prefix)
    {
      var ch := scene.children[i];
      assert ch == s[i];
      KeptStep(s, prefix, i);
      if StartsWith(ch.name, prefix) {
        scene.children := scene.children[..i] + scene.children[i + 1..];
        assert scene.children == s[..i] + Kept(s[i + 1..], prefix);
        disposed := disposed + DisposeObject(ch);
      } else {
        assert s[..i + 1] == s[..i] + [s[i]];
      }
      i := i - 1;
    }
    assert s[0..] == s;
  }
}
