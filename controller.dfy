/**
 * The active-set controller as transitions of the pair (active layers,
 * active templates), both arrays of ids: what addActiveLayer,
 * addActiveTemplate, removeActiveLayer, removeActiveTemplate and clearAll
 * commit to the widget's state, and the consistency they keep.
 */
module Controller {
  import opened Entities
  import opened Seqs

  datatype ActiveSets = ActiveSets(layers: seq<int>, templates: seq<int>)

  /** Neither array holds an id twice. */
  ghost predicate Distinct(a: ActiveSets) {
    NoDup(a.layers) && NoDup(a.templates)
  }

  /**
   * Every active template that has members has at least one active member:
   * the consistency the cascades of removeActiveLayer restore.
   */
  ghost predicate Covered(templates: map<int, Template>, a: ActiveSets) {
    forall t :: t in a.templates ==>
      MembersOf(templates, t) == [] || Intersects(MembersOf(templates, t), a.layers)
  }

  /** addActiveLayer: the wrapper is appended when it is absent; templates are untouched. */
  function AddLayer(a: ActiveSets, w: int): (r: ActiveSets)
    ensures r.templates == a.templates
    ensures w in a.layers ==> r.layers == a.layers
    ensures w !in a.layers ==> r.layers == a.layers + [w]
  {
    AppendAbsentOne(a.layers, w);
    a.(layers := AppendAbsent(a.layers, [w]))
  }

  /**
   * addActiveTemplate, when every member could be materialized: the template
   * and then each absent member are appended, the earlier entries kept as a
   * prefix.
   */
  function AddTemplate(templates: map<int, Template>, a: ActiveSets, t: int): (r: ActiveSets)
    ensures |a.layers| <= |r.layers| && r.layers[..|a.layers|] == a.layers
    ensures |a.templates| <= |r.templates| && r.templates[..|a.templates|] == a.templates
    ensures forall w :: w in r.layers <==> w in a.layers || w in MembersOf(templates, t)
    ensures forall x :: x in r.templates <==> x in a.templates || x == t
  {
    ActiveSets(AppendAbsent(a.layers, MembersOf(templates, t)), AppendAbsent(a.templates, [t]))
  }

  /** The active wrappers whose live layer is `layer` (the `lw.layer !== layer` filter drops them). */
  function Showing(wrappers: map<int, LayerWrapper>, layers: seq<int>, layer: Layer): set<int> {
    set w | w in layers && LayerOf(wrappers, w) == Some(layer)
  }

  /**
   * The active templates removeActiveLayer drops: those listed by the
   * wrapper under `layer.id` none of whose members is still active.
   */
  function Orphaned(wrappers: map<int, LayerWrapper>, templates: map<int, Template>,
                    active: seq<int>, w: int, remaining: seq<int>): set<int> {
    set t | t in active && t in TemplatesOf(wrappers, w) && !Intersects(MembersOf(templates, t), remaining)
  }

  /**
   * removeActiveLayer: drop every active wrapper showing `layer`, then every
   * active template listed by the wrapper `+layer.id` that has no active
   * member left. Looking that wrapper up throws when its id is unknown and
   * there is an active template to check; nothing is committed then (None).
   */
  function RemoveLayer(wrappers: map<int, LayerWrapper>, templates: map<int, Template>,
                       a: ActiveSets, layer: Layer): (r: Option<ActiveSets>)
    ensures r.None? <==> layer.id !in wrappers && a.templates != []
    ensures r.Some? ==> forall w :: w in r.value.layers <==> w in a.layers && LayerOf(wrappers, w) != Some(layer)
    ensures r.Some? ==> forall t :: t in r.value.templates <==>
      t in a.templates && !(t in TemplatesOf(wrappers, layer.id) && !Intersects(MembersOf(templates, t), r.value.layers))
  {
    if layer.id !in wrappers && a.templates != [] then None
    else
      var layers := RemoveAll(a.layers, Showing(wrappers, a.layers, layer));
      Some(ActiveSets(layers, RemoveAll(a.templates, Orphaned(wrappers, templates, a.templates, layer.id, layers))))
  }

  /** Checking one more active template adds it to the orphans exactly when it is one. */
  lemma {:induction false} OrphanedNext(wrappers: map<int, LayerWrapper>, templates: map<int, Template>,
                                        active: seq<int>, i: int, w: int, remaining: seq<int>)
    requires 0 <= i < |active|
    ensures Orphaned(wrappers, templates, active[..i + 1], w, remaining) ==
      Orphaned(wrappers, templates, active[..i], w, remaining) +
      (if active[i] in TemplatesOf(wrappers, w) && !Intersects(MembersOf(templates, active[i]), remaining)
       then {active[i]} else {})
  {
    assert active[..i + 1] == active[..i] + [active[i]];
  }

  /**
   * The members of a template being removed that no remaining active
   * template is listed by.
   */
  function Unreferenced(wrappers: map<int, LayerWrapper>, members: seq<int>, remaining: seq<int>): set<int> {
    set w | w in members && !Intersects(remaining, TemplatesOf(wrappers, w))
  }

  /**
   * removeActiveTemplate: drop the template, then every member that is not
   * listed under any remaining active template. Unlike removeActiveLayer it
   * does not cascade to other templates.
   */
  function RemoveTemplate(wrappers: map<int, LayerWrapper>, templates: map<int, Template>,
                          a: ActiveSets, t: int): (r: ActiveSets)
    ensures forall x :: x in r.templates <==> x in a.templates && x != t
    ensures forall w :: w in r.layers <==>
      w in a.layers && !(w in MembersOf(templates, t) && !Intersects(r.templates, TemplatesOf(wrappers, w)))
  {
    var remaining := RemoveAll(a.templates, {t});
    ActiveSets(RemoveAll(a.layers, Unreferenced(wrappers, MembersOf(templates, t), remaining)), remaining)
  }

  /**
   * createLayer's effect when it succeeds: the wrapper's `layer` becomes a
   * handle carrying the wrapper's own id and title; nothing else changes.
   */
  function Materialize(wrappers: map<int, LayerWrapper>, id: int): (r: map<int, LayerWrapper>)
    ensures r.Keys == wrappers.Keys
    ensures id in wrappers ==> r[id].layer == Some(Layer(wrappers[id].id, wrappers[id].title))
    ensures forall w :: w in wrappers ==> r[w] == wrappers[w].(layer := r[w].layer)
    ensures forall w :: w in wrappers && w != id ==> r[w] == wrappers[w]
    ensures HandlesMatch(wrappers) ==> HandlesMatch(r)
  {
    if id in wrappers then wrappers[id := wrappers[id].(layer := Some(HandleOf(wrappers[id])))] else wrappers
  }

  /**
   * addActiveTemplate's materializations when every createLayer succeeds:
   * each of `ids`, in order, that has no live layer yet gets one.
   */
  function MaterializeMissing(wrappers: map<int, LayerWrapper>, ids: seq<int>): (r: map<int, LayerWrapper>)
    ensures r.Keys == wrappers.Keys
    ensures forall w :: w in wrappers ==> r[w] == wrappers[w].(layer := r[w].layer)
    ensures forall w :: w in wrappers ==> (LayerOf(r, w).Some? <==> LayerOf(wrappers, w).Some? || w in ids)
    ensures forall w :: w in wrappers && w !in ids ==> r[w] == wrappers[w]
    ensures HandlesMatch(wrappers) ==> HandlesMatch(r)
    decreases |ids|
  {
    if ids == [] then wrappers
    else
      var p := ids[..|ids| - 1];
      var w := ids[|ids| - 1];
      assert ids == p + [w];
      var prev := MaterializeMissing(wrappers, p);
      if LayerOf(prev, w).None? then Materialize(prev, w) else prev
  }

  /**
   * Materializing changes only live layers, and gives each the wrapper's own
   * handle, so the entity maps stay well formed.
   */
  lemma {:induction false} MaterializedWellFormed(categories: map<int, Category>, templates: map<int, Template>,
                                                  wrappers: map<int, LayerWrapper>, r: map<int, LayerWrapper>)
    requires WellFormed(categories, templates, wrappers)
    requires r.Keys == wrappers.Keys && HandlesMatch(r)
    requires forall w :: w in wrappers ==> r[w] == wrappers[w].(layer := r[w].layer)
    ensures WellFormed(categories, templates, r)
  {
    forall w | w in r && r[w].category.Some?
      ensures r[w].category.value in categories && w in categories[r[w].category.value].layerWrappers
    {
      assert r[w].category == wrappers[w].category;
    }
    forall t, w | w in MembersOf(templates, t) ensures t in TemplatesOf(r, w) {
      assert t in TemplatesOf(wrappers, w);
      assert r[w] == wrappers[w].(layer := r[w].layer);
    }
  }

  /**
   * What addActiveTemplate's member loop carries: whether every createLayer
   * so far resolved, the wrappers (materialized in place) and the new
   * active layers.
   */
  datatype MemberPass = MemberPass(ok: bool, wrappers: map<int, LayerWrapper>, layers: seq<int>)

  /**
   * One member: materialize it when it has no live layer (rejecting when
   * that fails, which ends the loop), then append it unless present.
   */
  function AddMember(prev: MemberPass, w: int, resolves: set<int>): MemberPass {
    if !prev.ok then prev
    else if LayerOf(prev.wrappers, w).None? && w !in resolves then prev.(ok := false)
    else
      MemberPass(true,
        if LayerOf(prev.wrappers, w).None? then Materialize(prev.wrappers, w) else prev.wrappers,
        if w in prev.layers then prev.layers else prev.layers + [w])
  }

  /** The member loop over `members`, in order, starting from `wrappers` and `layers`. */
  function AddMembers(wrappers: map<int, LayerWrapper>, layers: seq<int>, members: seq<int>, resolves: set<int>): MemberPass
    decreases |members|
  {
    if members == [] then MemberPass(true, wrappers, layers)
    else AddMember(AddMembers(wrappers, layers, members[..|members| - 1], resolves), members[|members| - 1], resolves)
  }

  /**
   * The member loop changes only live layers, never takes one away, and
   * gives each wrapper its own handle.
   */
  lemma {:induction false} AddMembersLayersOnly(wrappers: map<int, LayerWrapper>, layers: seq<int>,
                                                members: seq<int>, resolves: set<int>)
    ensures var r := AddMembers(wrappers, layers, members, resolves);
      r.wrappers.Keys == wrappers.Keys &&
      (forall w :: w in wrappers ==> r.wrappers[w] == wrappers[w].(layer := r.wrappers[w].layer)) &&
      (forall w :: w in wrappers && wrappers[w].layer.Some? ==> r.wrappers[w].layer.Some?) &&
      (HandlesMatch(wrappers) ==> HandlesMatch(r.wrappers))
    decreases |members|
  {
    if members != [] {
      AddMembersLayersOnly(wrappers, layers, members[..|members| - 1], resolves);
    }
  }

  /** Each member either has a live layer already or can be materialized. */
  ghost predicate Resolvable(wrappers: map<int, LayerWrapper>, members: seq<int>, resolves: set<int>) {
    forall w :: w in members ==> LayerOf(wrappers, w).Some? || w in resolves
  }

  /**
   * When every member resolves, the loop completes: the wrappers are
   * MaterializeMissing's and the new active layers AppendAbsent's.
   */
  lemma {:induction false} AddMembersResolved(wrappers: map<int, LayerWrapper>, layers: seq<int>,
                                              members: seq<int>, resolves: set<int>)
    requires Resolvable(wrappers, members, resolves)
    ensures var r := AddMembers(wrappers, layers, members, resolves);
      r.ok && r.wrappers == MaterializeMissing(wrappers, members) && r.layers == AppendAbsent(layers, members)
    decreases |members|
  {
    if members != [] {
      var p := members[..|members| - 1];
      var w := members[|members| - 1];
      assert members == p + [w];
      AddMembersResolved(wrappers, layers, p, resolves);
      assert w in members;
    }
  }

  /**
   * The member loop rejected at member `k`, the first member that has no
   * live layer and cannot get one; `result` holds the wrappers materialized
   * before it.
   */
  ghost predicate RejectsAt(wrappers: map<int, LayerWrapper>, members: seq<int>, resolves: set<int>,
                            result: map<int, LayerWrapper>, k: int) {
    0 <= k < |members| && Resolvable(wrappers, members[..k], resolves) &&
    result == MaterializeMissing(wrappers, members[..k]) &&
    LayerOf(wrappers, members[k]).None? && members[k] !in resolves
  }

  /**
   * When some member does not resolve, the loop rejects at the first such
   * member, with the wrappers before it already materialized.
   */
  lemma {:induction false} AddMembersRejected(wrappers: map<int, LayerWrapper>, layers: seq<int>,
                                              members: seq<int>, resolves: set<int>)
    requires !Resolvable(wrappers, members, resolves)
    ensures var r := AddMembers(wrappers, layers, members, resolves);
      !r.ok && exists k :: RejectsAt(wrappers, members, resolves, r.wrappers, k)
    decreases |members|
  {
    var r := AddMembers(wrappers, layers, members, resolves);
    var p := members[..|members| - 1];
    if Resolvable(wrappers, p, resolves) {
      RejectedAtLast(wrappers, layers, members, resolves);
      var k := |members| - 1;
      assert members[..k] == p;
      assert RejectsAt(wrappers, members, resolves, r.wrappers, k);
    } else {
      AddMembersRejected(wrappers, layers, p, resolves);
      var q := AddMembers(wrappers, layers, p, resolves);
      var k :| RejectsAt(wrappers, p, resolves, q.wrappers, k);
      RejectedInPrefix(wrappers, layers, members, resolves, k);
      assert members[k] == p[k];
      assert RejectsAt(wrappers, members, resolves, r.wrappers, k);
    }
  }

  /** A rejection at member `k` of all but the last member is the rejection of the whole loop. */
  lemma {:induction false} RejectedInPrefix(wrappers: map<int, LayerWrapper>, layers: seq<int>,
                                            members: seq<int>, resolves: set<int>, k: int)
    requires members != [] && 0 <= k < |members| - 1
    requires var p := members[..|members| - 1];
      !AddMembers(wrappers, layers, p, resolves).ok && Resolvable(wrappers, p[..k], resolves) &&
      AddMembers(wrappers, layers, p, resolves).wrappers == MaterializeMissing(wrappers, p[..k])
    ensures var r := AddMembers(wrappers, layers, members, resolves);
      !r.ok && Resolvable(wrappers, members[..k], resolves) && r.wrappers == MaterializeMissing(wrappers, members[..k])
  {
    var p := members[..|members| - 1];
    RejectedBeforeLast(wrappers, layers, members, resolves);
    assert p[..k] == members[..k];
  }

  /** A loop that has rejected before the last member ignores that member. */
  lemma RejectedBeforeLast(wrappers: map<int, LayerWrapper>, layers: seq<int>, members: seq<int>, resolves: set<int>)
    requires members != [] && !AddMembers(wrappers, layers, members[..|members| - 1], resolves).ok
    ensures AddMembers(wrappers, layers, members, resolves) == AddMembers(wrappers, layers, members[..|members| - 1], resolves)
  {
  }

  /** The case of AddMembersRejected where only the last member does not resolve. */
  lemma {:induction false} RejectedAtLast(wrappers: map<int, LayerWrapper>, layers: seq<int>,
                                          members: seq<int>, resolves: set<int>)
    requires members != [] && !Resolvable(wrappers, members, resolves)
    requires Resolvable(wrappers, members[..|members| - 1], resolves)
    ensures var r := AddMembers(wrappers, layers, members, resolves);
      !r.ok && r.wrappers == MaterializeMissing(wrappers, members[..|members| - 1]) &&
      LayerOf(wrappers, members[|members| - 1]).None? && members[|members| - 1] !in resolves
  {
    var p := members[..|members| - 1];
    var w := members[|members| - 1];
    assert members == p + [w];
    AddMembersResolved(wrappers, layers, p, resolves);
    var prev := AddMembers(wrappers, layers, p, resolves);
    var bad :| bad in members && LayerOf(wrappers, bad).None? && bad !in resolves;
    assert bad == w;
    assert w !in p;
    assert LayerOf(prev.wrappers, w).None? by {
      if w in wrappers {
        assert LayerOf(prev.wrappers, w).Some? <==> LayerOf(wrappers, w).Some? || w in p;
      }
    }
  }

  /** Once a member has rejected, the later members change nothing. */
  lemma {:induction false} AddMembersStopsAtFailure(wrappers: map<int, LayerWrapper>, layers: seq<int>,
                                                    members: seq<int>, resolves: set<int>, k: int)
    requires 0 <= k <= |members| && !AddMembers(wrappers, layers, members[..k], resolves).ok
    ensures AddMembers(wrappers, layers, members, resolves) == AddMembers(wrappers, layers, members[..k], resolves)
    decreases |members|
  {
    if k == |members| {
      assert members[..k] == members;
    } else {
      var p := members[..|members| - 1];
      assert p[..k] == members[..k];
      AddMembersStopsAtFailure(wrappers, layers, p, resolves, k);
    }
  }

  /** clearAll: both arrays become empty. */
  const Cleared := ActiveSets([], [])

  /** Each transition keeps both arrays free of duplicates. */
  lemma {:induction false} TransitionsKeepDistinct(wrappers: map<int, LayerWrapper>, templates: map<int, Template>,
                                a: ActiveSets, w: int, t: int, layer: Layer)
    requires Distinct(a)
    ensures Distinct(AddLayer(a, w))
    ensures Distinct(AddTemplate(templates, a, t))
    ensures RemoveLayer(wrappers, templates, a, layer).Some? ==> Distinct(RemoveLayer(wrappers, templates, a, layer).value)
    ensures Distinct(RemoveTemplate(wrappers, templates, a, t))
    ensures Distinct(Cleared)
  {
    AppendAbsentNoDup(a.layers, [w]);
    AppendAbsentNoDup(a.layers, MembersOf(templates, t));
    AppendAbsentNoDup(a.templates, [t]);
    var layers := RemoveAll(a.layers, Showing(wrappers, a.layers, layer));
    RemoveAllNoDup(a.layers, Showing(wrappers, a.layers, layer));
    RemoveAllNoDup(a.templates, Orphaned(wrappers, templates, a.templates, layer.id, layers));
    var remaining := RemoveAll(a.templates, {t});
    RemoveAllNoDup(a.templates, {t});
    RemoveAllNoDup(a.layers, Unreferenced(wrappers, MembersOf(templates, t), remaining));
  }

  /**
   * addActiveTemplate leaves the template and each of its members exactly
   * once in the active arrays.
   */
  lemma {:induction false} AddTemplateOnce(templates: map<int, Template>, a: ActiveSets, t: int, w: int)
    requires Distinct(a)
    ensures Count(AddTemplate(templates, a, t).templates, t) == 1
    ensures w in MembersOf(templates, t) ==> Count(AddTemplate(templates, a, t).layers, w) == 1
  {
    AppendAbsentOnce(a.templates, [t], t);
    if w in MembersOf(templates, t) {
      AppendAbsentOnce(a.layers, MembersOf(templates, t), w);
    }
  }

  /** Adding a template twice gives the same active arrays as adding it once. */
  lemma {:induction false} AddTemplateIdempotent(templates: map<int, Template>, a: ActiveSets, t: int)
    ensures AddTemplate(templates, AddTemplate(templates, a, t), t) == AddTemplate(templates, a, t)
  {
    AppendAbsentIdempotent(a.layers, MembersOf(templates, t));
    AppendAbsentIdempotent(a.templates, [t]);
  }

  /** Adding a layer keeps every active template covered. */
  lemma {:induction false} AddLayerKeepsCovered(templates: map<int, Template>, a: ActiveSets, w: int)
    requires Covered(templates, a)
    ensures Covered(templates, AddLayer(a, w))
  {
    var r := AddLayer(a, w);
    forall x | x in r.templates && MembersOf(templates, x) != []
      ensures Intersects(MembersOf(templates, x), r.layers)
    {
      var m :| m in MembersOf(templates, x) && m in a.layers;
      assert m in r.layers;
    }
  }

  /**
   * Adding a template keeps every active template covered: the new one by
   * its members, which are all added, the others by their earlier members.
   */
  lemma {:induction false} AddTemplateKeepsCovered(templates: map<int, Template>, a: ActiveSets, t: int)
    requires Covered(templates, a)
    ensures Covered(templates, AddTemplate(templates, a, t))
  {
    var r := AddTemplate(templates, a, t);
    forall x | x in r.templates && MembersOf(templates, x) != []
      ensures Intersects(MembersOf(templates, x), r.layers)
    {
      if x == t {
        var m := MembersOf(templates, x)[0];
        assert m in MembersOf(templates, x);
      } else {
        var m :| m in MembersOf(templates, x) && m in a.layers;
        assert m in r.layers;
      }
    }
  }

  /**
   * removeActiveLayer keeps every active template covered, given that every
   * member lists its template and wrappers carry their own handles: templates
   * listed by the removed wrapper are checked, and no other template has it
   * as a member.
   */
  lemma {:induction false} RemoveLayerKeepsCovered(wrappers: map<int, LayerWrapper>, templates: map<int, Template>,
                                a: ActiveSets, layer: Layer)
    requires MembersListed(templates, wrappers) && HandlesMatch(wrappers)
    requires Covered(templates, a)
    requires RemoveLayer(wrappers, templates, a, layer).Some?
    ensures Covered(templates, RemoveLayer(wrappers, templates, a, layer).value)
  {
    var r := RemoveLayer(wrappers, templates, a, layer).value;
    forall t | t in r.templates && MembersOf(templates, t) != []
      ensures Intersects(MembersOf(templates, t), r.layers)
    {
      if t !in TemplatesOf(wrappers, layer.id) {
        var m :| m in MembersOf(templates, t) && m in a.layers;
        assert t in TemplatesOf(wrappers, m);
        assert m != layer.id;
        assert LayerOf(wrappers, m) != Some(layer);
        assert m in r.layers;
      }
    }
  }

  /**
   * removeActiveTemplate keeps every remaining active template covered,
   * given that every member lists its template: a member of a remaining
   * template is listed under it, so it is kept.
   */
  lemma {:induction false} RemoveTemplateKeepsCovered(wrappers: map<int, LayerWrapper>, templates: map<int, Template>,
                                   a: ActiveSets, t: int)
    requires MembersListed(templates, wrappers)
    requires Covered(templates, a)
    ensures Covered(templates, RemoveTemplate(wrappers, templates, a, t))
  {
    var r := RemoveTemplate(wrappers, templates, a, t);
    forall x | x in r.templates && MembersOf(templates, x) != []
      ensures Intersects(MembersOf(templates, x), r.layers)
    {
      var m :| m in MembersOf(templates, x) && m in a.layers;
      assert x in TemplatesOf(wrappers, m);
      assert Intersects(r.templates, TemplatesOf(wrappers, m));
      assert m in r.layers;
    }
  }

  /**
   * A wrapper shown through two active templates survives the removal of the
   * first, and is removed with the second when no other active template
   * lists it.
   */
  lemma {:induction false} SharedLayerOutlivesOneTemplate(wrappers: map<int, LayerWrapper>, templates: map<int, Template>,
                                       a: ActiveSets, t1: int, t2: int, w: int)
    requires MembersListed(templates, wrappers)
    requires t1 != t2 && t1 in a.templates && t2 in a.templates && w in a.layers
    requires w in MembersOf(templates, t1) && w in MembersOf(templates, t2)
    requires forall t :: t in a.templates && t in TemplatesOf(wrappers, w) ==> t == t1 || t == t2
    ensures var after1 := RemoveTemplate(wrappers, templates, a, t1);
      w in after1.layers && w !in RemoveTemplate(wrappers, templates, after1, t2).layers
  {
    var after1 := RemoveTemplate(wrappers, templates, a, t1);
    assert t2 in after1.templates && t2 in TemplatesOf(wrappers, w);
    var after2 := RemoveTemplate(wrappers, templates, after1, t2);
    assert !Intersects(after2.templates, TemplatesOf(wrappers, w));
  }

  /**
   * A live layer identifies its wrapper: removing a wrapper's own handle
   * drops exactly that wrapper from the active layers, and the lookup by
   * `+layer.id` finds that same wrapper, so the removal goes through.
   */
  lemma {:induction false} RemoveOwnLayer(wrappers: map<int, LayerWrapper>, templates: map<int, Template>,
                                          a: ActiveSets, w: int)
    requires HandlesMatch(wrappers) && w in wrappers && wrappers[w].layer.Some?
    ensures var r := RemoveLayer(wrappers, templates, a, wrappers[w].layer.value);
      r.Some? && forall x :: x in r.value.layers <==> x in a.layers && x != w
  {
    var handle := wrappers[w].layer.value;
    assert handle.id == w;
    forall x | x in wrappers && LayerOf(wrappers, x) == Some(handle) ensures x == w {
      assert wrappers[x].layer.value == HandleOf(wrappers[x]);
    }
  }

  /**
   * Removing a layer just added undoes the addition: with symmetric links
   * and every active template covered, no active template is orphaned by it.
   */
  lemma {:induction false} RemoveUndoesAddLayer(wrappers: map<int, LayerWrapper>, templates: map<int, Template>,
                                                a: ActiveSets, w: int)
    requires Symmetric(templates, wrappers) && HandlesMatch(wrappers) && Covered(templates, a)
    requires w in wrappers && wrappers[w].layer.Some? && w !in a.layers
    ensures RemoveLayer(wrappers, templates, AddLayer(a, w), wrappers[w].layer.value) == Some(a)
  {
    var handle := wrappers[w].layer.value;
    assert handle.id == w;
    var b := AddLayer(a, w);
    var showing := Showing(wrappers, b.layers, handle);
    forall x | LayerOf(wrappers, x) == Some(handle) ensures x == w {
      assert wrappers[x].layer.value == HandleOf(wrappers[x]);
    }
    RemoveAllConcat(a.layers, [w], showing);
    RemoveAllNothing(a.layers, showing);
    RemoveAllEverything([w], showing);
    var orphaned := Orphaned(wrappers, templates, b.templates, w, a.layers);
    forall t | t in a.templates && t in TemplatesOf(wrappers, w)
      ensures Intersects(MembersOf(templates, t), a.layers)
    {
      assert w in MembersOf(templates, t);
    }
    RemoveAllNothing(a.templates, orphaned);
  }

  /**
   * Removing a template just added undoes the addition, when none of its
   * members was active before and none is listed under another active
   * template.
   */
  lemma {:induction false} RemoveUndoesAddTemplate(wrappers: map<int, LayerWrapper>, templates: map<int, Template>,
                                                   a: ActiveSets, t: int)
    requires t !in a.templates
    requires forall w :: w in MembersOf(templates, t) ==>
      w !in a.layers && !Intersects(a.templates, TemplatesOf(wrappers, w))
    ensures RemoveTemplate(wrappers, templates, AddTemplate(templates, a, t), t) == a
  {
    var members := MembersOf(templates, t);
    var b := AddTemplate(templates, a, t);
    AppendAbsentOne(a.templates, t);
    RemoveAllConcat(a.templates, [t], {t});
    RemoveAllNothing(a.templates, {t});
    RemoveAllEverything([t], {t});
    var remaining := RemoveAll(b.templates, {t});
    assert remaining == a.templates;
    var unreferenced := Unreferenced(wrappers, members, remaining);
    var added := b.layers[|a.layers|..];
    assert b.layers == a.layers + added;
    RemoveAllConcat(a.layers, added, unreferenced);
    RemoveAllNothing(a.layers, unreferenced);
    RemoveAllEverything(added, unreferenced);
  }
}
