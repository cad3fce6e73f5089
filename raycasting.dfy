/** `Threelet._raycast` (src/index.js:857-868): choosing one intersection from
    the list the raycaster returns. */
module Raycasting {
  import opened Common

  /** Identity of a three.js `Face3` object (compared with `!==`). */
  type FaceRef = nat

  datatype Point3 = Point3(x: real, y: real, z: real)

  /** One entry of `raycaster.intersectObjects(...)`; `face` is `null` for
      objects without faces. */
  datatype Intersection = Intersection(distance: real, point: Point3, face: Option<FaceRef>, faceIndex: Option<nat>, object: nat)

  /** The loop of `_raycast` from index `i`: the first index whose face is not
      `exclude`, if any. */
  function FirstOtherFace(isects: seq<Intersection>, exclude: FaceRef, i: nat): (k: Option<nat>)
    requires i <= |isects|
    ensures k.Some? ==> i <= k.value < |isects| && isects[k.value].face != Some(exclude)
    ensures k.Some? ==> forall j :: i <= j < k.value ==> isects[j].face == Some(exclude)
    ensures k.None? ==> forall j :: i <= j < |isects| ==> isects[j].face == Some(exclude)
    decreases |isects| - i
  {
    if i == |isects| then None
    else if isects[i].face != Some(exclude) then Some(i)
    else FirstOtherFace(isects, exclude, i + 1)
  }

  /** `_raycast(meshes, recursive, faceExclude)` over the raycaster's result
      `isects`: with a face to exclude, the first intersection on another face
      (or `null`); without one, the nearest intersection (or `null`). */
  function Raycast(isects: seq<Intersection>, faceExclude: Option<FaceRef>): (r: Option<Intersection>)
    ensures faceExclude.Some? ==>
              (r.None? <==> forall j :: 0 <= j < |isects| ==> isects[j].face == faceExclude)
    ensures faceExclude.Some? && r.Some? ==>
              exists k :: 0 <= k < |isects| && isects[k] == r.value && r.value.face != faceExclude &&
                          forall j :: 0 <= j < k ==> isects[j].face == faceExclude
    ensures faceExclude.None? ==> (r.None? <==> isects == []) && (r.Some? ==> r.value == isects[0])
  {
    if faceExclude.Some? then
      var k := FirstOtherFace(isects, faceExclude.value, 0);
      if k.Some? then Some(isects[k.value]) else None
    else if |isects| > 0 then Some(isects[0])
    else None
  }
}
