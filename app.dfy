/** The configurator component: the fields it keeps, and the handlers that
    switch views, place and rebuild decals, texture the parts and track the
    mouse. Rendering, the camera, loaders and the DOM stay outside; what
    they would hand over arrives as parameters. */
module App {
  import opened Base
  import opened Scene
  import opened Selection
  import opened Views
  import opened Placement
  import opened Rescale
  import opened Gesture

  class AppComponent {
    /** `tajineLid`, `tajinePlate` and `tabla`, once the model has them. */
    var parts: map<PartId, Part>
    /** `objectToScale`, once the model is loaded. */
    var group: Option<Group>
    var uploadedDecalTexture: Option<Texture>
    var currentView: View
    var viewMode: ViewMode
    var selectedPart: Option<string>
    /** The drag detector's closure variables. */
    var isDragging: bool
    var mouseDownX: real
    var mouseDownY: real

    /** The group exists only together with the lid and the plate it was
        made from, and the decal registry is well formed. */
    ghost predicate Valid()
      reads this
    {
      && (group.Some? ==> Lid in parts && Plate in parts)
      && WellFormed(parts)
    }

    /** The drag detector's state as one value. */
    function Clicks(): Tracker
      reads this
    {
      Tracker(isDragging, mouseDownX, mouseDownY, viewMode, selectedPart)
    }

    /** The component before `ngOnInit`: nothing loaded, the whole assembly
        in view, the carousel showing. */
    constructor ()
      ensures Valid()
      ensures parts == map[] && group == None && uploadedDecalTexture == None
      ensures currentView == ShowAll && viewMode == Carousel && selectedPart == None
      ensures !isDragging && mouseDownX == 0.0 && mouseDownY == 0.0
    {
      parts := map[];
      group := None;
      uploadedDecalTexture := None;
      currentView := ShowAll;
      viewMode := Carousel;
      selectedPart := None;
      isDragging := false;
      mouseDownX := 0.0;
      mouseDownY := 0.0;
    }

    /** The model loader's completion: the table is taken as found (possibly
        missing); only when both the lid and the plate were found are they
        installed, inside a new group of unit scale at the origin. */
    method OnModelLoaded(table: Option<Surface>, lid: Option<Surface>, plate: Option<Surface>)
      requires Valid()
      modifies this`parts, this`group
      ensures Valid()
      ensures var withTable := if table.Some? then old(parts)[Table := Loaded(table.value)] else old(parts) - {Table};
        if lid.Some? && plate.Some? then
          group == Some(Group(Uniform(1.0), Origin)) &&
          parts == withTable[Lid := Loaded(lid.value)][Plate := Loaded(plate.value)]
        else
          group == old(group) && parts == withTable
    {
      parts := if table.Some? then parts[Table := Loaded(table.value)] else parts - {Table};
      if lid.None? || plate.None? {
        return;
      }
      group := Some(Group(Uniform(1.0), Origin));
      parts := parts[Lid := Loaded(lid.value)][Plate := Loaded(plate.value)];
    }

    /** A decal texture finished loading: it is the one clicks place. */
    method UseDecalTexture(decalTexture: Texture)
      requires Valid()
      modifies this`uploadedDecalTexture
      ensures Valid()
      ensures uploadedDecalTexture == Some(decalTexture)
    {
      uploadedDecalTexture := Some(decalTexture);
    }

    /** `toggleDecals(mesh, visible)`: every decal of the part takes the
        flag, in place; the list keeps its length and order, an absent list
        stays absent, and no other part changes. */
    method ToggleDecals(id: PartId, visible: bool)
      requires Valid() && id in parts
      modifies this`parts
      ensures Valid()
      ensures parts == old(parts)[id := WithDecals(old(parts)[id], visible)]
    {
      var part := parts[id];
      if part.decals.Some? {
        var ds := part.decals.value;
        var i := 0;
        while i < |ds|
          invariant 0 <= i <= |ds| == |part.decals.value|
          invariant forall j :: 0 <= j < i ==> ds[j] == part.decals.value[j].(visible := visible)
          invariant forall j :: i <= j < |ds| ==> ds[j] == part.decals.value[j]
        {
          ds := ds[i := ds[i].(visible := visible)];
          i := i + 1;
        }
        assert ds == Toggled(part.decals.value, visible);
        parts := parts[id := part.(decals := Some(ds))];
      }
    }

    /** `enforceVisibility`: with all three parts present, the decals of a
        hidden lid or plate are hidden; nothing else changes. */
    method EnforceVisibility()
      requires Valid()
      modifies this`parts
      ensures Valid()
      ensures parts == if Complete(old(parts)) then Enforced(old(parts)) else old(parts)
    {
      if Lid in parts && Plate in parts && Table in parts {
        ghost var before := parts;
        if !parts[Lid].visible {
          ToggleDecals(Lid, false);
        }
        if !parts[Plate].visible {
          ToggleDecals(Plate, false);
        }
        assert parts == Enforced(before);
      }
    }

    /** `LidView`: unless the lid is already in view or a part is missing,
        show the lid alone, its decals shown and the plate's hidden. */
    method LidView()
      requires Valid()
      modifies this`parts, this`currentView
      ensures Valid()
      ensures if old(currentView) != ShowLid && Complete(old(parts))
        then parts == InView(old(parts), ShowLid) && currentView == ShowLid
        else parts == old(parts) && currentView == old(currentView)
    {
      if currentView == ShowLid {
        return;
      }
      if Lid in parts && Plate in parts && Table in parts {
        ghost var before := parts;
        parts := parts[Plate := parts[Plate].(visible := false)];
        parts := parts[Table := parts[Table].(visible := false)];
        parts := parts[Lid := parts[Lid].(visible := true)];
        ToggleDecals(Lid, true);
        ToggleDecals(Plate, false);
        InViewByParts(before, parts, ShowLid);
        EnforcedInView(before, ShowLid);
        EnforceVisibility();
        currentView := ShowLid;
      }
    }

    /** `plateView`: the mirror image of `LidView` for the plate. */
    method PlateView()
      requires Valid()
      modifies this`parts, this`currentView
      ensures Valid()
      ensures if old(currentView) != ShowPlate && Complete(old(parts))
        then parts == InView(old(parts), ShowPlate) && currentView == ShowPlate
        else parts == old(parts) && currentView == old(currentView)
    {
      if currentView == ShowPlate {
        return;
      }
      if Lid in parts && Plate in parts && Table in parts {
        ghost var before := parts;
        parts := parts[Lid := parts[Lid].(visible := false)];
        parts := parts[Table := parts[Table].(visible := false)];
        parts := parts[Plate := parts[Plate].(visible := true)];
        ToggleDecals(Plate, true);
        ToggleDecals(Lid, false);
        InViewByParts(before, parts, ShowPlate);
        currentView := ShowPlate;
      }
    }

    /** `restoreOriginalView`: unless already there or a part is missing,
        show all three parts and every decal. */
    method RestoreOriginalView()
      requires Valid()
      modifies this`parts, this`currentView
      ensures Valid()
      ensures if old(currentView) != ShowAll && Complete(old(parts))
        then parts == InView(old(parts), ShowAll) && currentView == ShowAll
        else parts == old(parts) && currentView == old(currentView)
    {
      if currentView == ShowAll {
        return;
      }
      if Lid in parts && Plate in parts && Table in parts {
        ghost var before := parts;
        parts := parts[Lid := parts[Lid].(visible := true)];
        parts := parts[Plate := parts[Plate].(visible := true)];
        parts := parts[Table := parts[Table].(visible := true)];
        ToggleDecals(Lid, true);
        ToggleDecals(Plate, true);
        InViewByParts(before, parts, ShowAll);
        currentView := ShowAll;
      }
    }

    /** `handleSelect`: the selection is recorded and customization starts;
        the view the selection names is entered when it is not the current
        one. */
    method HandleSelect(selected: string)
      requires Valid()
      modifies this`parts, this`currentView, this`selectedPart, this`viewMode
      ensures Valid()
      ensures selectedPart == Some(selected) && viewMode == Customization
      ensures var target := TargetView(selected);
        if old(currentView) != target && Complete(old(parts))
        then parts == InView(old(parts), target) && currentView == target
        else parts == old(parts) && currentView == old(currentView)
    {
      selectedPart := Some(selected);
      viewMode := Customization;
      var targetView := TargetView(selected);
      if currentView != targetView {
        if selected == "lid" {
          LidView();
        } else if selected == "plate" {
          PlateView();
        } else {
          RestoreOriginalView();
        }
      }
    }

    /** `onPointerDown`, given every hit of the pointer ray (nearest first)
        and the orientation three.js derives from a part and a face normal:
        the decal goes on the first hit part among the visible lid and plate,
        when a decal texture was uploaded and the face has a normal. */
    method OnPointerDown(rayHits: seq<Hit>, orient: (PartId, Vec3) -> Euler)
      requires Valid()
      modifies this`parts
      ensures Valid()
      ensures parts == Placed(old(parts), rayHits, orient, uploadedDecalTexture)
      ensures old(DecalsFollowParts(parts)) ==> DecalsFollowParts(parts)
    {
      PlacedKeepsRegistry(parts, rayHits, orient, uploadedDecalTexture);
      var intersectableMeshes := Intersectable(parts);
      var intersects := HitsOn(rayHits, intersectableMeshes);
      if |intersects| > 0 && uploadedDecalTexture.Some? {
        var intersect := intersects[0];
        FirstHitIsOnVisiblePart(parts, rayHits);
        if intersect.faceNormal.Some? {
          var orientation := orient(intersect.mesh, intersect.faceNormal.value);
          var decalMesh := ClickDecal(intersect.mesh, intersect.point, orientation, uploadedDecalTexture.value);
          parts := parts[intersect.mesh := Pushed(parts[intersect.mesh], decalMesh)];
        }
      }
    }

    /** The decal texture's completion in `applyDecalToMesh`, given where the
        target's local point (0, 0, 2) lies in the world and the clock. */
    method ApplyDecalToMesh(decalTexture: Texture, localToWorld: (PartId, Vec3) -> Vec3, now: nat)
      requires Valid() && Lid in parts && Plate in parts
      modifies this`parts
      ensures Valid()
      ensures parts == Stamped(old(parts), localToWorld, decalTexture, now)
    {
      StampedKeepsRegistry(parts, localToWorld, decalTexture, now);
      var targetMesh := DecalTarget(parts[Lid].visible, parts[Plate].visible);
      var worldPosition := localToWorld(targetMesh, StampOffset);
      var decalMesh := StampDecal(targetMesh, worldPosition, decalTexture, now);
      parts := parts[targetMesh := Pushed(parts[targetMesh], decalMesh)];
    }

    /** `applyTextureToMesh`: the texture becomes the map of every material
        of the part, each flagged for update; nothing else changes. */
    method ApplyTextureToMesh(id: PartId, texture: Texture)
      requires Valid() && id in parts
      modifies this`parts
      ensures Valid()
      ensures parts == old(parts)[id := old(parts)[id].(material := Painted(old(parts)[id].material, texture))]
    {
      var part := parts[id];
      match part.material
      case Single(m) =>
        parts := parts[id := part.(material := Single(Paint(m, texture)))];
      case Several(ms) =>
        var out := ms;
        var i := 0;
        while i < |out|
          invariant 0 <= i <= |out| == |ms|
          invariant forall j :: 0 <= j < i ==> out[j] == Paint(ms[j], texture)
          invariant forall j :: i <= j < |out| ==> out[j] == ms[j]
        {
          out := out[i := Paint(out[i], texture)];
          i := i + 1;
        }
        assert Several(out) == Painted(part.material, texture);
        parts := parts[id := part.(material := Several(out))];
    }

    /** The surface texture's completion in `applyTextureToModel`: exactly
        the visible ones among the lid and the plate are textured. */
    method ApplyTextureToModel(texture: Texture)
      requires Valid() && Lid in parts && Plate in parts
      modifies this`parts
      ensures Valid()
      ensures parts.Keys == old(parts).Keys
      ensures forall p :: p in parts ==>
        parts[p] == if p in TextureTargets(old(parts)[Lid].visible, old(parts)[Plate].visible)
                    then old(parts)[p].(material := Painted(old(parts)[p].material, texture))
                    else old(parts)[p]
    {
      if parts[Lid].visible && !parts[Plate].visible {
        ApplyTextureToMesh(Lid, texture);
      } else if parts[Plate].visible && !parts[Lid].visible {
        ApplyTextureToMesh(Plate, texture);
      } else if parts[Lid].visible && parts[Plate].visible {
        ApplyTextureToMesh(Lid, texture);
        ApplyTextureToMesh(Plate, texture);
      }
    }

    /** One saving loop of the rescale: a record per decal of part `p`, in
        order, sized by the group's current scale; the list is then emptied
        (an absent list stays absent). */
    method TakeDecals(p: PartId) returns (records: seq<DecalRecord>)
      requires Valid() && p in parts && group.Some?
      modifies this`parts
      ensures Valid()
      ensures parts == Emptied(old(parts), p)
      ensures records == RecordsOf(old(parts)[p].decals, p, group.value.scale.x)
    {
      records := [];
      var part := parts[p];
      if part.decals.Some? {
        var ds := part.decals.value;
        var i := 0;
        while i < |ds|
          invariant 0 <= i <= |ds|
          invariant records == Saved(ds[..i], p, group.value.scale.x)
        {
          assert ds[..i + 1][..i] == ds[..i];
          records := records + [Save(ds[i], p, group.value.scale.x)];
          i := i + 1;
        }
        assert ds[..|ds|] == ds;
        parts := parts[p := part.(decals := Some([]))];
      }
    }

    /** The rebuilding loop of the rescale, with the group already at scale
        `k`: a new mesh per record, in order, pushed onto the record's part. */
    method RegenerateDecals(allDecals: seq<DecalRecord>, k: real)
      requires group.Some? && group.value.scale.x == k && k != 0.0
      requires Valid() && Rebuildable(parts, allDecals)
      modifies this`parts
      ensures Valid()
      ensures parts == Regenerated(old(parts), allDecals, k)
    {
      ghost var before := parts;
      var i := 0;
      while i < |allDecals|
        invariant 0 <= i <= |allDecals|
        invariant Rebuildable(before, allDecals[..i])
        invariant parts == Regenerated(before, allDecals[..i], k)
      {
        assert allDecals[..i + 1][..i] == allDecals[..i];
        var decalInfo := allDecals[i];
        var material := decalInfo.mesh.material;
        var parent := parts[decalInfo.parentMesh];
        var newPosition := Scale(decalInfo.position, k / parent.scale);
        var decalGeometry := DecalGeometry(decalInfo.parentMesh, newPosition, decalInfo.orientation,
                                           Scale(decalInfo.size, k / group.value.scale.x));
        var newDecalMesh := NewDecalMesh(decalGeometry, material);
        parts := parts[decalInfo.parentMesh := Pushed(parent, newDecalMesh)];
        i := i + 1;
      }
      assert allDecals[..|allDecals|] == allDecals;
      RegeneratedWellFormed(before, allDecals, k);
    }

    /** `resizeModelToRealWorldDiameter(newDiameter)`, given the top of the
        table's bounding box and the bottom of the rescaled group's: with the
        group, the plate and the table present, the group takes the uniform
        scale `newDiameter / 26.7`, every decal of the lid and the plate is
        rebuilt in order on its own part, and the group is raised by the gap
        between the two boxes; otherwise nothing changes. */
    method ResizeModelToRealWorldDiameter(newDiameter: real, tableTopY: real, objectBottomY: real)
      requires Valid()
      requires newDiameter != 0.0
      requires Lid in parts ==> parts[Lid].scale != 0.0
      requires Plate in parts ==> parts[Plate].scale != 0.0
      modifies this`parts, this`group
      ensures Valid()
      ensures if old(group).Some? && Plate in old(parts) && Table in old(parts) then
          var k := newDiameter / OriginalDiameter;
          var seat := old(group).value.position;
          && group == Some(Group(Uniform(k), seat.(y := seat.y + (tableTopY - objectBottomY))))
          && parts == Rebuild(old(parts), old(group).value.scale.x, k)
        else
          group == old(group) && parts == old(parts)
    {
      if group.Some? && Plate in parts && Table in parts {
        var scaleFactor := newDiameter / OriginalDiameter;
        ghost var before := parts;
        ghost var oldScaleX := group.value.scale.x;
        var lidRecords := TakeDecals(Lid);
        var plateRecords := TakeDecals(Plate);
        var allDecals := lidRecords + plateRecords;
        group := Some(group.value.(scale := Uniform(scaleFactor)));
        RegeneratedIsRebuild(before, oldScaleX, scaleFactor);
        RegenerateDecals(allDecals, scaleFactor);
        RebuildWellFormed(before, oldScaleX, scaleFactor);

        var tableBoxTop := tableTopY;
        var objectBoxBottom := objectBottomY;
        var offsetY := tableBoxTop - objectBoxBottom;
        group := Some(group.value.(position := group.value.position.(y := group.value.position.y + offsetY)));
      }
    }

    /** The document's mousedown handler. */
    method OnMouseDown(x: real, y: real)
      requires Valid()
      modifies this`isDragging, this`mouseDownX, this`mouseDownY
      ensures Valid()
      ensures Clicks() == Step(old(Clicks()), MouseDown(x, y))
    {
      isDragging := false;
      mouseDownX := x;
      mouseDownY := y;
    }

    /** The document's mousemove handler. */
    method OnMouseMove(x: real, y: real)
      requires Valid()
      modifies this`isDragging
      ensures Valid()
      ensures Clicks() == Step(old(Clicks()), MouseMove(x, y))
    {
      if !isDragging {
        var deltaX := Abs(x - mouseDownX);
        var deltaY := Abs(y - mouseDownY);
        if deltaX > DragThreshold || deltaY > DragThreshold {
          isDragging := true;
        }
      }
    }

    /** The document's mouseup handler. */
    method OnMouseUp(target: ClickTarget)
      requires Valid()
      modifies this`viewMode, this`selectedPart
      ensures Valid()
      ensures Clicks() == Step(old(Clicks()), MouseUp(target))
    {
      if isDragging || viewMode != Customization {
        return;
      }
      if target.inCanvas && target.toolkitFound && !target.inToolkit {
        viewMode := Carousel;
        selectedPart := None;
      }
    }
  }
}
