/** The rescale engine behind `resizeModelToRealWorldDiameter`: the records
    it saves for every decal of the lid and the plate before emptying their
    lists, and the decal meshes it rebuilds from those records once the group
    has its new scale. */
module Rescale {
  import opened Base
  import opened Scene

  /** The real-world diameter, in centimetres, of the model as authored. */
  const OriginalDiameter: real := 26.7

  /** The extents every saved record carries, before the group's scale. */
  const SavedExtent := Vec3(0.15, 0.15, 2.0)

  /** One entry of `allDecals`: the old mesh, its part, and the position,
      orientation and size the new geometry is built from. */
  datatype DecalRecord = DecalRecord(mesh: DecalMesh, parentMesh: PartId, position: Vec3, orientation: Euler, size: Vec3)

  /** The entry pushed for decal `d` of `parent` while the group's scale is
      `groupScaleX`. */
  function Save(d: DecalMesh, parent: PartId, groupScaleX: real): DecalRecord {
    DecalRecord(d, parent, d.position, d.rotation, Scale(SavedExtent, groupScaleX))
  }

  /** The entries the saving loop pushes for a part's decal list: one per
      decal, in the list's order. */
  function Saved(ds: seq<DecalMesh>, parent: PartId, groupScaleX: real): (rs: seq<DecalRecord>)
    ensures |rs| == |ds|
    ensures forall i :: 0 <= i < |ds| ==> rs[i] == Save(ds[i], parent, groupScaleX)
    decreases |ds|
  {
    if ds == [] then []
    else Saved(ds[..|ds| - 1], parent, groupScaleX) + [Save(ds[|ds| - 1], parent, groupScaleX)]
  }

  /** The decal mesh rebuilt from record `r` once the group's scale is
      `groupScaleX` and the record's part has scale `parentScaleX`: the
      position is scaled by `k / parentScaleX`, the size by `k / groupScaleX`,
      and the old mesh's material is reused. */
  function Regen(r: DecalRecord, k: real, groupScaleX: real, parentScaleX: real): (m: DecalMesh)
    requires groupScaleX != 0.0 && parentScaleX != 0.0
    ensures Attached(r.parentMesh, [m]) && m.visible && m.name == ""
    ensures m.material == r.mesh.material && m.geometry.orientation == r.orientation
    ensures m.geometry.position == Scale(r.position, k / parentScaleX) && m.geometry.size == Scale(r.size, k / groupScaleX)
  {
    NewDecalMesh(
      DecalGeometry(r.parentMesh, Scale(r.position, k / parentScaleX), r.orientation, Scale(r.size, k / groupScaleX)),
      r.mesh.material)
  }

  /** The meshes rebuilt from `rs`, one per record, in order. */
  function RegenAll(rs: seq<DecalRecord>, k: real, groupScaleX: real, parentScaleX: real): (ds: seq<DecalMesh>)
    requires groupScaleX != 0.0 && parentScaleX != 0.0
    ensures |ds| == |rs|
    ensures forall i :: 0 <= i < |rs| ==> ds[i] == Regen(rs[i], k, groupScaleX, parentScaleX)
    decreases |rs|
  {
    if rs == [] then []
    else RegenAll(rs[..|rs| - 1], k, groupScaleX, parentScaleX) + [Regen(rs[|rs| - 1], k, groupScaleX, parentScaleX)]
  }

  /** The records of `rs` whose part is `p`, in order. */
  function Only(rs: seq<DecalRecord>, p: PartId): (r: seq<DecalRecord>)
    decreases |rs|
  {
    if rs == [] then []
    else Only(rs[..|rs| - 1], p) + (if rs[|rs| - 1].parentMesh == p then [rs[|rs| - 1]] else [])
  }

  /** Picking the records of one part distributes over concatenation. */
  lemma {:induction false} OnlyConcat(a: seq<DecalRecord>, b: seq<DecalRecord>, p: PartId)
    ensures Only(a + b, p) == Only(a, p) + Only(b, p)
    decreases |b|
  {
    if b != [] {
      var n := |b| - 1;
      assert (a + b)[..|a + b| - 1] == a + b[..n];
      assert (a + b)[|a + b| - 1] == b[n];
      OnlyConcat(a, b[..n], p);
      assert Only(a + b, p) == Only(a + b[..n], p) + (if b[n].parentMesh == p then [b[n]] else []);
      assert Only(b, p) == Only(b[..n], p) + (if b[n].parentMesh == p then [b[n]] else []);
    } else {
      assert a + b == a;
    }
  }

  /** Records that all belong to `p` are all picked; records of which none
      belongs to `p` yield nothing. */
  lemma {:induction false} OnlyUniform(rs: seq<DecalRecord>, p: PartId, q: PartId)
    requires forall i :: 0 <= i < |rs| ==> rs[i].parentMesh == q
    ensures Only(rs, p) == if p == q then rs else []
    decreases |rs|
  {
    if rs != [] {
      var n := |rs| - 1;
      OnlyUniform(rs[..n], p, q);
    }
  }

  /** `allDecals` holds the lid's records and then the plate's; each part
      gets back exactly its own, in order. */
  lemma OnlyOwnRecords(lidRecords: seq<DecalRecord>, plateRecords: seq<DecalRecord>)
    requires forall i :: 0 <= i < |lidRecords| ==> lidRecords[i].parentMesh == Lid
    requires forall i :: 0 <= i < |plateRecords| ==> plateRecords[i].parentMesh == Plate
    ensures Only(lidRecords + plateRecords, Lid) == lidRecords
    ensures Only(lidRecords + plateRecords, Plate) == plateRecords
  {
    OnlyConcat(lidRecords, plateRecords, Lid);
    OnlyConcat(lidRecords, plateRecords, Plate);
    OnlyUniform(lidRecords, Lid, Lid);
    OnlyUniform(lidRecords, Plate, Lid);
    OnlyUniform(plateRecords, Lid, Plate);
    OnlyUniform(plateRecords, Plate, Plate);
  }

  /** `xs` pushed one by one onto an optional list that the first push
      creates when it is absent. */
  function Appended(o: Option<seq<DecalMesh>>, xs: seq<DecalMesh>): (r: Option<seq<DecalMesh>>)
    ensures xs != [] ==> r.Some?
    ensures xs == [] ==> r == o
  {
    if xs == [] then o else Some((if o.Some? then o.value else []) + xs)
  }

  /** Pushing one more mesh onto the list extends the pushed sequence. */
  lemma AppendedPush(o: Option<seq<DecalMesh>>, xs: seq<DecalMesh>, x: DecalMesh)
    ensures Some((if Appended(o, xs).Some? then Appended(o, xs).value else []) + [x]) == Appended(o, xs + [x])
  {
    if xs == [] {
      assert xs + [x] == [x];
    } else {
      var base := if o.Some? then o.value else [];
      assert Appended(o, xs) == Some(base + xs);
      assert Appended(o, xs + [x]) == Some(base + (xs + [x]));
      assert (base + xs) + [x] == base + (xs + [x]);
    }
  }

  /** One part's decal list after the rescale: a present list holds one
      rebuilt mesh per original, in order, built with the group already at
      scale `k`; an absent list stays absent. */
  function Rebuilt(o: Option<seq<DecalMesh>>, p: PartId, oldGroupScaleX: real, k: real, parentScaleX: real): Option<seq<DecalMesh>>
    requires k != 0.0 && parentScaleX != 0.0
  {
    if o.None? then None else Some(RegenAll(Saved(o.value, p, oldGroupScaleX), k, k, parentScaleX))
  }

  /** The two parts agree on everything but their decal lists, and the
      second holds as many decals as the first, absent where it is absent. */
  predicate KeepsAllButDecals(a: Part, b: Part) {
    && a.visible == b.visible && a.scale == b.scale && a.material == b.material
    && a.decals.None? == b.decals.None? && |DecalsOf(a)| == |DecalsOf(b)|
  }

  /** The parts after the rescale: the lid's and the plate's lists rebuilt,
      everything else as it was. */
  function Rebuild(ps: map<PartId, Part>, oldGroupScaleX: real, k: real): (r: map<PartId, Part>)
    requires Lid in ps && Plate in ps && k != 0.0 && ps[Lid].scale != 0.0 && ps[Plate].scale != 0.0
    ensures r.Keys == ps.Keys && (Table in ps ==> r[Table] == ps[Table])
    ensures KeepsAllButDecals(ps[Lid], r[Lid]) && KeepsAllButDecals(ps[Plate], r[Plate])
  {
    ps[Lid := ps[Lid].(decals := Rebuilt(ps[Lid].decals, Lid, oldGroupScaleX, k, ps[Lid].scale))]
      [Plate := ps[Plate].(decals := Rebuilt(ps[Plate].decals, Plate, oldGroupScaleX, k, ps[Plate].scale))]
  }

  /** What the rescale makes of the `i`-th decal of a part: attached to the
      same part, same material and orientation, position scaled by
      `k / parentScaleX`, and size `SavedExtent` times the OLD group scale
      (the size factor `k / k` is 1, since the group scale is set first);
      the new mesh is visible and unnamed. */
  lemma RebuiltDecal(ds: seq<DecalMesh>, p: PartId, oldGroupScaleX: real, k: real, parentScaleX: real, i: nat)
    requires k != 0.0 && parentScaleX != 0.0 && i < |ds|
    ensures var r := Rebuilt(Some(ds), p, oldGroupScaleX, k, parentScaleX).value;
      && |r| == |ds|
      && r[i].geometry == DecalGeometry(p, Scale(ds[i].position, k / parentScaleX), ds[i].rotation, Scale(SavedExtent, oldGroupScaleX))
      && r[i].material == ds[i].material
      && r[i].visible && r[i].name == ""
  {
    var s := Saved(ds, p, oldGroupScaleX)[i];
    assert k / k == 1.0;
    assert Scale(s.size, k / k) == s.size;
  }

  /** Rebuilt decals stay attached to their part, and since the component
      never moves a decal mesh, every rebuilt geometry is centred on the
      origin with no rotation, whatever the new diameter. */
  lemma RebuiltAttached(ds: seq<DecalMesh>, p: PartId, oldGroupScaleX: real, k: real, parentScaleX: real)
    requires k != 0.0 && parentScaleX != 0.0 && Attached(p, ds)
    ensures var r := Rebuilt(Some(ds), p, oldGroupScaleX, k, parentScaleX).value;
      && Attached(p, r)
      && forall i :: 0 <= i < |r| ==> r[i].geometry.position == Origin && r[i].geometry.orientation == NoRotation
  {
    var r := Rebuilt(Some(ds), p, oldGroupScaleX, k, parentScaleX).value;
    forall i | 0 <= i < |r|
      ensures r[i].geometry.target == p && r[i].position == Origin && r[i].rotation == NoRotation
      ensures r[i].geometry.position == Origin && r[i].geometry.orientation == NoRotation
    {
      RebuiltDecal(ds, p, oldGroupScaleX, k, parentScaleX, i);
    }
  }

  /** The rescale keeps the registry well formed. */
  lemma RebuildWellFormed(ps: map<PartId, Part>, oldGroupScaleX: real, k: real)
    requires Lid in ps && Plate in ps && k != 0.0 && ps[Lid].scale != 0.0 && ps[Plate].scale != 0.0
    requires WellFormed(ps)
    ensures WellFormed(Rebuild(ps, oldGroupScaleX, k))
  {
    if ps[Lid].decals.Some? {
      RebuiltAttached(ps[Lid].decals.value, Lid, oldGroupScaleX, k, ps[Lid].scale);
    }
    if ps[Plate].decals.Some? {
      RebuiltAttached(ps[Plate].decals.value, Plate, oldGroupScaleX, k, ps[Plate].scale);
    }
  }

  /** The entries the saving loop pushes for an optional list: none when
      the part never had a decal. */
  function RecordsOf(o: Option<seq<DecalMesh>>, p: PartId, groupScaleX: real): (rs: seq<DecalRecord>)
    ensures forall j :: 0 <= j < |rs| ==> rs[j].parentMesh == p
  {
    if o.Some? then Saved(o.value, p, groupScaleX) else []
  }

  /** The part's list emptied by `userData.decals = []`, which the source does
      only when the list exists. */
  function Emptied(ps: map<PartId, Part>, p: PartId): map<PartId, Part>
    requires p in ps
  {
    ps[p := ps[p].(decals := if ps[p].decals.Some? then Some([]) else None)]
  }

  /** The rebuilding can run: the lid and the plate are there with usable
      scales, and no record belongs to the table. */
  predicate Rebuildable(ps: map<PartId, Part>, rs: seq<DecalRecord>) {
    && Lid in ps && Plate in ps && ps[Lid].scale != 0.0 && ps[Plate].scale != 0.0
    && forall j :: 0 <= j < |rs| ==> rs[j].parentMesh != Table
  }

  /** The parts after the rebuilding loop has run over `rs`: each record's
      new mesh pushed, in order, onto the record's part. */
  function Regenerated(ps: map<PartId, Part>, rs: seq<DecalRecord>, k: real): (r: map<PartId, Part>)
    requires k != 0.0 && Rebuildable(ps, rs)
    ensures r.Keys == ps.Keys
    ensures r[Lid].scale == ps[Lid].scale && r[Plate].scale == ps[Plate].scale
    ensures Table in ps ==> r[Table] == ps[Table]
    decreases |rs|
  {
    if rs == [] then ps
    else
      var prev := Regenerated(ps, rs[..|rs| - 1], k);
      var x := rs[|rs| - 1];
      prev[x.parentMesh := Pushed(prev[x.parentMesh], Regen(x, k, k, prev[x.parentMesh].scale))]
  }

  /** The rebuilding loop keeps the registry well formed: each new mesh is
      built against the part whose list it joins. */
  lemma {:induction false} RegeneratedWellFormed(ps: map<PartId, Part>, rs: seq<DecalRecord>, k: real)
    requires k != 0.0 && Rebuildable(ps, rs) && WellFormed(ps)
    ensures WellFormed(Regenerated(ps, rs, k))
    decreases |rs|
  {
    if rs != [] {
      var n := |rs| - 1;
      assert Rebuildable(ps, rs[..n]);
      RegeneratedWellFormed(ps, rs[..n], k);
      var prev := Regenerated(ps, rs[..n], k);
      var x := rs[n];
      var m := Regen(x, k, k, prev[x.parentMesh].scale);
      var ds := DecalsOf(prev[x.parentMesh]);
      forall i | 0 <= i < |ds + [m]|
        ensures (ds + [m])[i].geometry.target == x.parentMesh
        ensures (ds + [m])[i].position == Origin && (ds + [m])[i].rotation == NoRotation
      {
        if i < |ds| {
          assert (ds + [m])[i] == ds[i];
        }
      }
    }
  }

  /** Seen from the lid or the plate, the rebuilding loop appends the meshes
      rebuilt from that part's records, in order. */
  lemma {:induction false} RegeneratedPart(ps: map<PartId, Part>, rs: seq<DecalRecord>, k: real, p: PartId)
    requires k != 0.0 && Rebuildable(ps, rs) && p != Table
    ensures Regenerated(ps, rs, k)[p] == ps[p].(decals := Appended(ps[p].decals, RegenAll(Only(rs, p), k, k, ps[p].scale)))
    decreases |rs|
  {
    if rs != [] {
      var n := |rs| - 1;
      var init, x := rs[..n], rs[n];
      RegeneratedPart(ps, init, k, p);
      var xs := Only(init, p);
      if x.parentMesh == p {
        assert Only(rs, p) == xs + [x];
        assert (xs + [x])[..|xs|] == xs;
        assert RegenAll(xs + [x], k, k, ps[p].scale) == RegenAll(xs, k, k, ps[p].scale) + [Regen(x, k, k, ps[p].scale)];
        AppendedPush(ps[p].decals, RegenAll(xs, k, k, ps[p].scale), Regen(x, k, k, ps[p].scale));
      } else {
        assert Only(rs, p) == xs;
      }
    }
  }

  /** The lid's records followed by the plate's hold none of the table's. */
  lemma RecordsOffTable(lidRecords: seq<DecalRecord>, plateRecords: seq<DecalRecord>)
    requires forall j :: 0 <= j < |lidRecords| ==> lidRecords[j].parentMesh == Lid
    requires forall j :: 0 <= j < |plateRecords| ==> plateRecords[j].parentMesh == Plate
    ensures forall j :: 0 <= j < |lidRecords + plateRecords| ==> (lidRecords + plateRecords)[j].parentMesh != Table
  {
    var all := lidRecords + plateRecords;
    forall j | 0 <= j < |all| ensures all[j].parentMesh != Table {
      if j < |lidRecords| {
        assert all[j] == lidRecords[j];
      } else {
        assert all[j] == plateRecords[j - |lidRecords|];
      }
    }
  }

  /** The lid's part of `RegeneratedIsRebuild`, or the plate's. */
  lemma RebuiltPart(ps: map<PartId, Part>, oldGroupScaleX: real, k: real, p: PartId)
    requires p != Table && Lid in ps && Plate in ps && k != 0.0 && ps[Lid].scale != 0.0 && ps[Plate].scale != 0.0
    requires Rebuildable(Emptied(Emptied(ps, Lid), Plate), RecordsOf(ps[Lid].decals, Lid, oldGroupScaleX) + RecordsOf(ps[Plate].decals, Plate, oldGroupScaleX))
    ensures var all := RecordsOf(ps[Lid].decals, Lid, oldGroupScaleX) + RecordsOf(ps[Plate].decals, Plate, oldGroupScaleX);
      Regenerated(Emptied(Emptied(ps, Lid), Plate), all, k)[p] == Rebuild(ps, oldGroupScaleX, k)[p]
  {
    var lidRecords := RecordsOf(ps[Lid].decals, Lid, oldGroupScaleX);
    var plateRecords := RecordsOf(ps[Plate].decals, Plate, oldGroupScaleX);
    OnlyOwnRecords(lidRecords, plateRecords);
    RegeneratedPart(Emptied(Emptied(ps, Lid), Plate), lidRecords + plateRecords, k, p);
    var xs := RegenAll(RecordsOf(ps[p].decals, p, oldGroupScaleX), k, k, ps[p].scale);
    assert [] + xs == xs;
  }

  /** Emptying both lists, then rebuilding from the lid's records followed
      by the plate's, is `Rebuild`. */
  lemma RegeneratedIsRebuild(ps: map<PartId, Part>, oldGroupScaleX: real, k: real)
    requires Lid in ps && Plate in ps && k != 0.0 && ps[Lid].scale != 0.0 && ps[Plate].scale != 0.0
    ensures var all := RecordsOf(ps[Lid].decals, Lid, oldGroupScaleX) + RecordsOf(ps[Plate].decals, Plate, oldGroupScaleX);
      var mid := Emptied(Emptied(ps, Lid), Plate);
      Rebuildable(mid, all) && Regenerated(mid, all, k) == Rebuild(ps, oldGroupScaleX, k)
  {
    var all := RecordsOf(ps[Lid].decals, Lid, oldGroupScaleX) + RecordsOf(ps[Plate].decals, Plate, oldGroupScaleX);
    var mid := Emptied(Emptied(ps, Lid), Plate);
    RecordsOffTable(RecordsOf(ps[Lid].decals, Lid, oldGroupScaleX), RecordsOf(ps[Plate].decals, Plate, oldGroupScaleX));
    RebuiltPart(ps, oldGroupScaleX, k, Lid);
    RebuiltPart(ps, oldGroupScaleX, k, Plate);
    SameParts(Regenerated(mid, all, k), Rebuild(ps, oldGroupScaleX, k));
  }
}
