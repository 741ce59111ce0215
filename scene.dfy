/** The objects of the configurator's scene that its logic reads and writes,
    reduced to plain records: the three part meshes, the group that scales
    two of them, and the decal meshes stuck onto the parts. */
module Scene {
  import opened Base

  /** The three meshes the component finds by name in the loaded model: the
      tajine lid (`tajineLid`), the tajine plate (`tajinePlate`) and the
      table it stands on (`tabla`). */
  datatype PartId = Lid | Plate | Table

  /** An opaque three.js `Texture` handle. */
  datatype Texture = Texture(id: nat)

  /** A material of a part's surface, with the two fields the component writes. */
  datatype SurfaceMaterial = SurfaceMaterial(mapTexture: Option<Texture>, needsUpdate: bool)

  /** `mesh.material` is one material or an array of them. */
  datatype Materials = Single(material: SurfaceMaterial) | Several(materials: seq<SurfaceMaterial>)

  /** The `MeshStandardMaterial` of a decal: its texture, and the settings
      that differ between the two places that build one (both also ask for a
      transparent, depth-tested material that does not write depth). */
  datatype DecalMaterial = DecalMaterial(
    texture: Texture,
    polygonOffsetFactor: int,
    polygonOffsetUnits: int,
    doubleSided: bool)

  /** `new DecalGeometry(mesh, position, orientation, size)`. The clipping
      against the mesh belongs to three.js, so the geometry is known only by
      the arguments it was built from. */
  datatype DecalGeometry = DecalGeometry(target: PartId, position: Vec3, orientation: Euler, size: Vec3)

  /** A decal mesh: its geometry and material, and the fields of the mesh
      object itself that the component reads or writes. */
  datatype DecalMesh = DecalMesh(
    geometry: DecalGeometry,
    material: DecalMaterial,
    visible: bool,
    name: string,
    position: Vec3,
    rotation: Euler)

  /** `new THREE.Mesh(geometry, material)`: a new mesh is visible, unnamed,
      at the origin and unrotated. */
  function NewDecalMesh(g: DecalGeometry, m: DecalMaterial): DecalMesh {
    DecalMesh(g, m, true, "", Origin, NoRotation)
  }

  /** A part mesh: its `visible` flag, its `userData.decals` list (absent
      until a decal is first pushed), its own `scale.x`, and its material. */
  datatype Part = Part(visible: bool, decals: Option<seq<DecalMesh>>, scale: real, material: Materials)

  /** A mesh as the model loader hands it over, before any decal exists. */
  datatype Surface = Surface(visible: bool, scale: real, material: Materials)

  /** A freshly loaded mesh as a part: no decal list yet. */
  function Loaded(s: Surface): Part {
    Part(s.visible, None, s.scale, s.material)
  }

  /** `objectToScale`: the group that holds the lid and the plate. */
  datatype Group = Group(scale: Vec3, position: Vec3)

  /** `currentView`: 'full', 'lid' or 'plate'. */
  datatype View = ShowAll | ShowLid | ShowPlate

  /** `viewMode`: 'carousel' or 'customization'. */
  datatype ViewMode = Carousel | Customization

  /** One intersection of the pointer ray with a part: the part, the world
      point, and the normal of the face hit when the geometry has one. */
  datatype Hit = Hit(mesh: PartId, point: Vec3, faceNormal: Option<Vec3>)

  /** The decals of a part, an absent list read as empty. */
  function DecalsOf(p: Part): seq<DecalMesh> {
    if p.decals.Some? then p.decals.value else []
  }

  /** `if (!userData.decals) userData.decals = []; userData.decals.push(d)`. */
  function Pushed(p: Part, d: DecalMesh): (r: Part)
    ensures r.decals.Some? && |r.decals.value| == |DecalsOf(p)| + 1
    ensures r.decals.value[..|DecalsOf(p)|] == DecalsOf(p) && r.decals.value[|DecalsOf(p)|] == d
    ensures r.visible == p.visible && r.scale == p.scale && r.material == p.material
  {
    p.(decals := Some(DecalsOf(p) + [d]))
  }

  /** The extents of a decal placed by a click. */
  const ClickDecalSize := Vec3(0.02, 0.02, 0.01)

  /** The decal `onPointerDown` builds for a click on `target` at `point`:
      centred on the point, 0.02 by 0.02 by 0.01, with the uploaded texture,
      a polygon offset of -4 and both faces drawn; a new, visible, unnamed
      mesh attached to `target`. */
  function ClickDecal(target: PartId, point: Vec3, orientation: Euler, t: Texture): (r: DecalMesh)
    ensures Attached(target, [r]) && r.visible && r.name == ""
    ensures r.geometry.position == point && r.geometry.orientation == orientation && r.geometry.size == Vec3(0.02, 0.02, 0.01)
    ensures r.material.texture == t && r.material.polygonOffsetFactor == -4 && r.material.polygonOffsetUnits == 0 && r.material.doubleSided
  {
    NewDecalMesh(DecalGeometry(target, point, orientation, ClickDecalSize), DecalMaterial(t, -4, 0, true))
  }

  /** The extents of a decal stamped from an uploaded image. */
  const StampSize := Vec3(2.0, 2.0, 0.1)

  /** The point, in the target's local frame, a stamped decal is centred on. */
  const StampOffset := Vec3(0.0, 0.0, 2.0)

  /** The decal `applyDecalToMesh` stamps on `target`: centred on
      `worldPosition`, unrotated, 2 by 2 by 0.1, with the loaded texture, a
      polygon offset of 5/2 and front faces only; a new, visible mesh
      attached to `target` and named after the clock reading `now`. */
  function StampDecal(target: PartId, worldPosition: Vec3, t: Texture, now: nat): (r: DecalMesh)
    ensures Attached(target, [r]) && r.visible && r.name == "decal_" + Decimal(now)
    ensures r.geometry.position == worldPosition && r.geometry.orientation == Euler(0.0, 0.0, 0.0) && r.geometry.size == Vec3(2.0, 2.0, 0.1)
    ensures r.material.texture == t && r.material.polygonOffsetFactor == 5 && r.material.polygonOffsetUnits == 2 && !r.material.doubleSided
  {
    NewDecalMesh(DecalGeometry(target, worldPosition, NoRotation, StampSize), DecalMaterial(t, 5, 2, false))
      .(name := "decal_" + Decimal(now))
  }

  /** Every decal of `ds` was built against part `p` and keeps the transform
      of a new mesh: the component never moves a decal mesh itself. */
  predicate Attached(p: PartId, ds: seq<DecalMesh>) {
    forall i :: 0 <= i < |ds| ==>
      ds[i].geometry.target == p && ds[i].position == Origin && ds[i].rotation == NoRotation
  }

  /** Only the lid and the plate carry decal lists, and each decal sits in the
      list of the part its geometry was built against. */
  predicate WellFormed(ps: map<PartId, Part>) {
    && (Table in ps ==> ps[Table].decals.None?)
    && forall p :: p in ps && ps[p].decals.Some? ==> Attached(p, ps[p].decals.value)
  }

  /** Two decals that differ at most in their `visible` flag. */
  predicate SameButVisibility(a: DecalMesh, b: DecalMesh) {
    && a.geometry == b.geometry
    && a.material == b.material
    && a.name == b.name
    && a.position == b.position
    && a.rotation == b.rotation
  }

  /** Two decal lists that hold the same decals in the same order, up to
      their `visible` flags; an absent list matches only an absent one. */
  predicate SameListButVisibility(a: Option<seq<DecalMesh>>, b: Option<seq<DecalMesh>>) {
    && a.None? == b.None?
    && (a.Some? && b.Some? ==>
          |a.value| == |b.value| &&
          forall i :: 0 <= i < |a.value| ==> SameButVisibility(a.value[i], b.value[i]))
  }

  /** Two part maps over the same keys that agree on the lid, the plate and
      the table are equal. */
  lemma SameParts(a: map<PartId, Part>, b: map<PartId, Part>)
    requires a.Keys == b.Keys && Lid in a && Plate in a
    requires a[Lid] == b[Lid] && a[Plate] == b[Plate] && (Table in a ==> a[Table] == b[Table])
    ensures a == b
  {
    forall p | p in a ensures a[p] == b[p] {
      match p
      case Lid =>
      case Plate =>
      case Table =>
    }
  }
}
