/** Where new decals come from: a click on a visible part (`onPointerDown`)
    and an uploaded decal image stamped on the part in view
    (`applyDecalToMesh`). Both only ever push one decal mesh at the end of
    one part's list. */
module Placement {
  import opened Base
  import opened Scene
  import opened Selection
  import opened Views

  /** The hit a click places its decal on, if it places one: the first
      intersection with a visible lid or plate, provided a decal texture was
      uploaded and the face hit has a normal. */
  function ClickHit(ps: map<PartId, Part>, hits: seq<Hit>, texture: Option<Texture>): (r: Option<Hit>)
    ensures r.Some? ==> r.value in hits && r.value.mesh != Table && r.value.mesh in ps && ps[r.value.mesh].visible
    ensures r.Some? ==> texture.Some? && r.value.faceNormal.Some?
    ensures var intersects := HitsOn(hits, Intersectable(ps));
      && (r.Some? <==> |intersects| > 0 && texture.Some? && intersects[0].faceNormal.Some?)
      && (r.Some? ==> r.value == intersects[0])
  {
    var intersects := HitsOn(hits, Intersectable(ps));
    if |intersects| > 0 && texture.Some? && intersects[0].faceNormal.Some? then
      FirstHitIsOnVisiblePart(ps, hits);
      Some(intersects[0])
    else None
  }

  /** The decal goes on the nearest ray hit that lies on a visible lid or
      plate, when a decal texture was uploaded and that hit's face has a
      normal; a normal on a farther hit does not help. */
  lemma ClickOnNearestVisibleHit(ps: map<PartId, Part>, hits: seq<Hit>, texture: Option<Texture>, j: nat)
    requires j < |hits| && hits[j].mesh != Table && hits[j].mesh in ps && ps[hits[j].mesh].visible
    requires forall i :: 0 <= i < j ==> !(hits[i].mesh != Table && hits[i].mesh in ps && ps[hits[i].mesh].visible)
    ensures ClickHit(ps, hits, texture) == if texture.Some? && hits[j].faceNormal.Some? then Some(hits[j]) else None
  {
    FirstHitIsNearestEligible(hits, Intersectable(ps), j);
  }

  /** A click whose ray meets no visible lid or plate places nothing. */
  lemma NoVisibleHitNoClick(ps: map<PartId, Part>, hits: seq<Hit>, texture: Option<Texture>)
    requires forall i :: 0 <= i < |hits| ==> !(hits[i].mesh != Table && hits[i].mesh in ps && ps[hits[i].mesh].visible)
    ensures ClickHit(ps, hits, texture) == None
  {
  }

  /** The parts after one run of `onPointerDown`, given every hit of the
      pointer ray and the orientation three.js derives from a part and a
      face normal. */
  function Placed(ps: map<PartId, Part>, hits: seq<Hit>, orient: (PartId, Vec3) -> Euler, texture: Option<Texture>): (r: map<PartId, Part>)
    ensures r.Keys == ps.Keys
    ensures ClickHit(ps, hits, texture).None? ==> r == ps
    ensures forall q :: q in ps ==> r[q].visible == ps[q].visible && r[q].scale == ps[q].scale && r[q].material == ps[q].material
  {
    var h := ClickHit(ps, hits, texture);
    if h.Some? then
      var hit := h.value;
      ps[hit.mesh := Pushed(ps[hit.mesh], ClickDecal(hit.mesh, hit.point, orient(hit.mesh, hit.faceNormal.value), texture.value))]
    else ps
  }

  /** A click places exactly one decal, at the end of the list of the part it
      hit, and touches nothing else; a click that hits no visible part, or
      comes before any decal texture, or hits a face without a normal, places
      none. */
  lemma ClickPlacesOne(ps: map<PartId, Part>, hits: seq<Hit>, orient: (PartId, Vec3) -> Euler, texture: Option<Texture>)
    ensures var r := Placed(ps, hits, orient, texture);
      var h := ClickHit(ps, hits, texture);
      && r.Keys == ps.Keys
      && (h.None? ==> r == ps)
      && (h.Some? ==>
            var p := h.value.mesh;
            && r[p].decals.Some?
            && r[p].decals.value == DecalsOf(ps[p]) + [ClickDecal(p, h.value.point, orient(p, h.value.faceNormal.value), texture.value)]
            && r[p].visible == ps[p].visible && r[p].scale == ps[p].scale && r[p].material == ps[p].material
            && forall q :: q in ps && q != p ==> r[q] == ps[q])
  {
  }

  /** A click keeps the registry well formed, and keeps every decal of the
      lid and the plate as visible as its part. */
  lemma PlacedKeepsRegistry(ps: map<PartId, Part>, hits: seq<Hit>, orient: (PartId, Vec3) -> Euler, texture: Option<Texture>)
    ensures WellFormed(ps) ==> WellFormed(Placed(ps, hits, orient, texture))
    ensures DecalsFollowParts(ps) ==> DecalsFollowParts(Placed(ps, hits, orient, texture))
  {
    var h := ClickHit(ps, hits, texture);
    if h.Some? {
      var p := h.value.mesh;
      var r := Placed(ps, hits, orient, texture);
      assert r[p].decals.value == DecalsOf(ps[p]) + [ClickDecal(p, h.value.point, orient(p, h.value.faceNormal.value), texture.value)];
    }
  }

  /** The parts once `applyDecalToMesh`'s texture has loaded, given where
      the target's local point (0, 0, 2) lies in the world and the clock. */
  function Stamped(ps: map<PartId, Part>, localToWorld: (PartId, Vec3) -> Vec3, texture: Texture, now: nat): (r: map<PartId, Part>)
    requires Lid in ps && Plate in ps
    ensures r.Keys == ps.Keys
    ensures forall q :: q in ps ==> r[q].visible == ps[q].visible && r[q].scale == ps[q].scale && r[q].material == ps[q].material
    ensures !(ps[Lid].visible && !ps[Plate].visible) ==> r[Lid] == ps[Lid]
    ensures ps[Lid].visible && !ps[Plate].visible ==> r[Plate] == ps[Plate]
    ensures Table in ps ==> r[Table] == ps[Table]
  {
    var target := DecalTarget(ps[Lid].visible, ps[Plate].visible);
    ps[target := Pushed(ps[target], StampDecal(target, localToWorld(target, StampOffset), texture, now))]
  }

  /** A stamped decal goes at the end of the list of the lid when the lid
      alone is visible and of the plate otherwise: built against that part at
      the world image of its local point (0, 0, 2), unrotated, 2 by 2 by 0.1,
      with the loaded texture and polygon offset 5/2, visible and named after
      the clock. The part keeps everything else, and no other part changes. */
  lemma StampPlacesOne(ps: map<PartId, Part>, localToWorld: (PartId, Vec3) -> Vec3, texture: Texture, now: nat)
    requires Lid in ps && Plate in ps
    ensures var r := Stamped(ps, localToWorld, texture, now);
      var p := if ps[Lid].visible && !ps[Plate].visible then Lid else Plate;
      var d := r[p].decals.value[|DecalsOf(ps[p])|];
      && r.Keys == ps.Keys
      && r[p].decals.Some?
      && |r[p].decals.value| == |DecalsOf(ps[p])| + 1
      && r[p].decals.value[..|DecalsOf(ps[p])|] == DecalsOf(ps[p])
      && d.geometry == DecalGeometry(p, localToWorld(p, Vec3(0.0, 0.0, 2.0)), Euler(0.0, 0.0, 0.0), Vec3(2.0, 2.0, 0.1))
      && d.material == DecalMaterial(texture, 5, 2, false)
      && d.name == "decal_" + Decimal(now) && d.visible
      && r[p].visible == ps[p].visible && r[p].scale == ps[p].scale && r[p].material == ps[p].material
      && forall q :: q in ps && q != p ==> r[q] == ps[q]
  {
    var p := DecalTarget(ps[Lid].visible, ps[Plate].visible);
    var r := Stamped(ps, localToWorld, texture, now);
    assert r[p].decals.value == DecalsOf(ps[p]) + [StampDecal(p, localToWorld(p, StampOffset), texture, now)];
  }

  /** Stamping keeps the registry well formed; it keeps decals following
      their parts when some part is visible, but with both parts hidden the
      new, visible decal lands on the hidden plate. */
  lemma StampedKeepsRegistry(ps: map<PartId, Part>, localToWorld: (PartId, Vec3) -> Vec3, texture: Texture, now: nat)
    requires Lid in ps && Plate in ps
    ensures WellFormed(ps) ==> WellFormed(Stamped(ps, localToWorld, texture, now))
    ensures DecalsFollowParts(ps) && (ps[Lid].visible || ps[Plate].visible) ==> DecalsFollowParts(Stamped(ps, localToWorld, texture, now))
    ensures !ps[Lid].visible && !ps[Plate].visible ==> !DecalsFollowParts(Stamped(ps, localToWorld, texture, now))
  {
    var p := DecalTarget(ps[Lid].visible, ps[Plate].visible);
    var r := Stamped(ps, localToWorld, texture, now);
    var d := StampDecal(p, localToWorld(p, StampOffset), texture, now);
    assert r[p].decals.value == DecalsOf(ps[p]) + [d];
    assert r[p].decals.value[|DecalsOf(ps[p])|] == d;
  }
}
