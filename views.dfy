/** The part-visibility view machine: what the lid, plate and whole-assembly
    views leave in the three parts and their decal lists, and the hiding
    done by `enforceVisibility`. */
module Views {
  import opened Base
  import opened Scene

  /** The lid, the plate and the table have all been found; the view
      transitions do nothing otherwise. */
  predicate Complete(ps: map<PartId, Part>) {
    Lid in ps && Plate in ps && Table in ps
  }

  /** `decals.forEach(decal => decal.visible = v)`: the same decals, in the
      same order, each now with `visible == v`. */
  function Toggled(ds: seq<DecalMesh>, v: bool): (r: seq<DecalMesh>)
    ensures |r| == |ds|
    ensures forall i :: 0 <= i < |ds| ==> r[i].visible == v && SameButVisibility(ds[i], r[i])
  {
    seq(|ds|, i requires 0 <= i < |ds| => ds[i].(visible := v))
  }

  /** `toggleDecals(mesh, v)` on a part: an absent list stays absent. */
  function WithDecals(p: Part, v: bool): (r: Part)
    ensures r.visible == p.visible && r.scale == p.scale && r.material == p.material
    ensures SameListButVisibility(p.decals, r.decals)
    ensures r.decals.Some? ==> forall i :: 0 <= i < |r.decals.value| ==> r.decals.value[i].visible == v
  {
    p.(decals := if p.decals.Some? then Some(Toggled(p.decals.value, v)) else None)
  }

  /** Every decal of the lid and of the plate is visible exactly when its
      part is. */
  ghost predicate DecalsFollowParts(ps: map<PartId, Part>) {
    forall p, i :: p in ps && p != Table && ps[p].decals.Some? && 0 <= i < |ps[p].decals.value| ==>
      ps[p].decals.value[i].visible == ps[p].visible
  }

  /** No decal of the part is visible. */
  predicate DecalsHidden(p: Part) {
    p.decals.Some? ==> forall i :: 0 <= i < |p.decals.value| ==> !p.decals.value[i].visible
  }

  /** Which of lid, plate and table a view shows. */
  predicate Shows(v: View, p: PartId) {
    match p
    case Lid => v != ShowPlate
    case Plate => v != ShowLid
    case Table => v == ShowAll
  }

  /** The parts once a transition to view `v` has set the three visibility
      flags and toggled the lid's and the plate's decals to match. */
  function InView(ps: map<PartId, Part>, v: View): (r: map<PartId, Part>)
    requires Complete(ps)
    ensures r.Keys == ps.Keys
    ensures forall p :: p in r ==> r[p].visible == Shows(v, p)
    ensures DecalsFollowParts(r)
    ensures forall p :: p in r ==>
      r[p].scale == ps[p].scale && r[p].material == ps[p].material &&
      SameListButVisibility(ps[p].decals, r[p].decals)
    ensures r[Table] == ps[Table].(visible := Shows(v, Table))
  {
    ps[Lid := WithDecals(ps[Lid].(visible := Shows(v, Lid)), Shows(v, Lid))]
      [Plate := WithDecals(ps[Plate].(visible := Shows(v, Plate)), Shows(v, Plate))]
      [Table := ps[Table].(visible := Shows(v, Table))]
  }

  /** A map that holds, part by part, what `InView` prescribes is `InView`. */
  lemma InViewByParts(ps: map<PartId, Part>, r: map<PartId, Part>, v: View)
    requires Complete(ps) && r.Keys == ps.Keys
    requires r[Lid] == WithDecals(ps[Lid].(visible := Shows(v, Lid)), Shows(v, Lid))
    requires r[Plate] == WithDecals(ps[Plate].(visible := Shows(v, Plate)), Shows(v, Plate))
    requires r[Table] == ps[Table].(visible := Shows(v, Table))
    ensures r == InView(ps, v)
  {
    SameParts(r, InView(ps, v));
  }

  /** Toggling twice leaves what the second toggle asked for. */
  lemma ToggledTwice(ds: seq<DecalMesh>, a: bool, b: bool)
    ensures Toggled(Toggled(ds, a), b) == Toggled(ds, b)
  {
    var l, r := Toggled(Toggled(ds, a), b), Toggled(ds, b);
    assert |l| == |r|;
    forall i | 0 <= i < |l| ensures l[i] == r[i] {
      assert l[i] == ds[i].(visible := a).(visible := b);
    }
  }

  /** Toggling a part's decals twice, whatever its flag in between. */
  lemma WithDecalsTwice(p: Part, a: bool, b: bool)
    ensures WithDecals(WithDecals(p, a), b) == WithDecals(p, b)
  {
    if p.decals.Some? {
      ToggledTwice(p.decals.value, a, b);
    }
  }

  /** A view transition forgets the view it started from: going to `v` and
      then to `w` leaves the parts as going to `w` directly. With `v == w`
      this is idempotence. */
  lemma InViewOverrides(ps: map<PartId, Part>, v: View, w: View)
    requires Complete(ps)
    ensures InView(InView(ps, v), w) == InView(ps, w)
  {
    var once := InView(ps, v);
    WithDecalsTwice(ps[Lid].(visible := Shows(w, Lid)), Shows(v, Lid), Shows(w, Lid));
    WithDecalsTwice(ps[Plate].(visible := Shows(w, Plate)), Shows(v, Plate), Shows(w, Plate));
    InViewByParts(ps, InView(once, w), w);
  }

  /** `enforceVisibility` on the parts: the lid's or the plate's decals are
      all hidden when that part is hidden; nothing else changes. */
  function Enforced(ps: map<PartId, Part>): (r: map<PartId, Part>)
    requires Complete(ps)
    ensures r.Keys == ps.Keys
    ensures forall p :: p in r ==>
      r[p].visible == ps[p].visible && r[p].scale == ps[p].scale && r[p].material == ps[p].material &&
      SameListButVisibility(ps[p].decals, r[p].decals)
    ensures forall p :: p in r && (ps[p].visible || p == Table) ==> r[p] == ps[p]
    ensures !ps[Lid].visible ==> DecalsHidden(r[Lid])
    ensures !ps[Plate].visible ==> DecalsHidden(r[Plate])
  {
    ps[Lid := if ps[Lid].visible then ps[Lid] else WithDecals(ps[Lid], false)]
      [Plate := if ps[Plate].visible then ps[Plate] else WithDecals(ps[Plate], false)]
  }

  /** Right after a transition there is nothing left for `enforceVisibility`
      to hide. */
  lemma EnforcedInView(ps: map<PartId, Part>, v: View)
    requires Complete(ps)
    ensures Enforced(InView(ps, v)) == InView(ps, v)
  {
    var s := InView(ps, v);
    forall p | p in {Lid, Plate} && !Shows(v, p) && ps[p].decals.Some?
      ensures Toggled(Toggled(ps[p].decals.value, false), false) == Toggled(ps[p].decals.value, false)
    {
      ToggledTwice(ps[p].decals.value, false, false);
    }
    assert Enforced(s)[Lid] == s[Lid];
    assert Enforced(s)[Plate] == s[Plate];
  }

  /** A transition keeps the registry well formed. */
  lemma InViewWellFormed(ps: map<PartId, Part>, v: View)
    requires Complete(ps) && WellFormed(ps)
    ensures WellFormed(InView(ps, v))
  {
  }
}
