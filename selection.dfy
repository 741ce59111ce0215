/** The choices the component makes from the parts' visibility alone: which
    meshes the pointer ray may hit, which hit a click lands on, which mesh an
    uploaded decal image is stamped on, which meshes an uploaded surface
    texture is applied to, and which view a carousel choice asks for. */
module Selection {
  import opened Base
  import opened Scene

  /** `[tajineLid, tajinePlate].filter(mesh => mesh?.visible)`: the lid and
      the plate, in that order, those of them that exist and are visible. */
  function Intersectable(ps: map<PartId, Part>): (r: seq<PartId>)
    ensures Lid in r <==> Lid in ps && ps[Lid].visible
    ensures Plate in r <==> Plate in ps && ps[Plate].visible
    ensures Table !in r
    ensures |r| <= 2 && (|r| == 2 ==> r == [Lid, Plate])
  {
    (if Lid in ps && ps[Lid].visible then [Lid] else []) +
    (if Plate in ps && ps[Plate].visible then [Plate] else [])
  }

  /** `raycaster.intersectObjects(meshes)`: of all the hits of the ray,
      nearest first, those on one of `meshes`, in the same order. */
  function HitsOn(hits: seq<Hit>, meshes: seq<PartId>): (r: seq<Hit>)
    ensures forall h :: h in r <==> h in hits && h.mesh in meshes
    ensures |r| <= |hits|
  {
    if hits == [] then []
    else (if hits[0].mesh in meshes then [hits[0]] else []) + HitsOn(hits[1..], meshes)
  }

  /** The first intersection reported is the nearest hit on an eligible
      mesh: every nearer hit is on a mesh that was left out. */
  lemma {:induction false} FirstHitIsNearestEligible(hits: seq<Hit>, meshes: seq<PartId>, j: nat)
    requires j < |hits| && hits[j].mesh in meshes
    requires forall i :: 0 <= i < j ==> hits[i].mesh !in meshes
    ensures HitsOn(hits, meshes) != [] && HitsOn(hits, meshes)[0] == hits[j]
  {
    if j > 0 {
      FirstHitIsNearestEligible(hits[1..], meshes, j - 1);
    }
  }

  /** A click never lands on a hidden part, nor on the table. */
  lemma FirstHitIsOnVisiblePart(ps: map<PartId, Part>, hits: seq<Hit>)
    requires HitsOn(hits, Intersectable(ps)) != []
    ensures var h := HitsOn(hits, Intersectable(ps))[0];
      h in hits && h.mesh != Table && h.mesh in ps && ps[h.mesh].visible
  {
    var r := HitsOn(hits, Intersectable(ps));
    assert r[0] in r;
  }

  /** The mesh `applyDecalToMesh` stamps a decal on: the lid when it alone is
      visible, the plate in every other case. */
  function DecalTarget(lidVisible: bool, plateVisible: bool): (r: PartId)
    ensures r != Table
    ensures r == Lid <==> lidVisible && !plateVisible
    ensures lidVisible != plateVisible ==> (r == Lid <==> lidVisible)
  {
    if lidVisible && !plateVisible then Lid
    else if plateVisible && !lidVisible then Plate
    else Plate
  }

  /** The meshes `applyTextureToModel` textures, in the order it does so:
      exactly the visible ones among the lid and the plate. */
  function TextureTargets(lidVisible: bool, plateVisible: bool): (r: seq<PartId>)
    ensures forall p :: p in r <==> (p == Lid && lidVisible) || (p == Plate && plateVisible)
    ensures |r| <= 2 && (|r| == 2 ==> r == [Lid, Plate])
  {
    if lidVisible && !plateVisible then [Lid]
    else if plateVisible && !lidVisible then [Plate]
    else if lidVisible && plateVisible then [Lid, Plate]
    else []
  }

  /** A surface texture goes on exactly the meshes a click could hit. */
  lemma TexturedAreIntersectable(ps: map<PartId, Part>)
    requires Lid in ps && Plate in ps
    ensures TextureTargets(ps[Lid].visible, ps[Plate].visible) == Intersectable(ps)
  {
  }

  /** `handleSelect`'s choice of view: 'lid' and 'plate' name their own
      views, every other selection the whole assembly. */
  function TargetView(selected: string): (v: View)
    ensures v == ShowLid <==> selected == "lid"
    ensures v == ShowPlate <==> selected == "plate"
    ensures v == ShowAll <==> selected != "lid" && selected != "plate"
  {
    if selected == "lid" then ShowLid
    else if selected == "plate" then ShowPlate
    else ShowAll
  }

  /** One material given the texture as its map and flagged for update. */
  function Paint(m: SurfaceMaterial, t: Texture): SurfaceMaterial {
    m.(mapTexture := Some(t), needsUpdate := true)
  }

  /** Every material in `m` maps texture `t` and awaits an update. */
  predicate AllPainted(m: Materials, t: Texture) {
    match m
    case Single(s) => s.mapTexture == Some(t) && s.needsUpdate
    case Several(ms) => forall i :: 0 <= i < |ms| ==> ms[i].mapTexture == Some(t) && ms[i].needsUpdate
  }

  /** `applyTextureToMesh` on a mesh's material: every material of the mesh
      takes the texture, and an array keeps its length. */
  function Painted(m: Materials, t: Texture): (r: Materials)
    ensures AllPainted(r, t)
    ensures r.Single? == m.Single?
    ensures r.Several? ==> |r.materials| == |m.materials|
  {
    match m
    case Single(s) => Single(Paint(s, t))
    case Several(ms) => Several(seq(|ms|, i requires 0 <= i < |ms| => Paint(ms[i], t)))
  }
}
