/**
 * The loops of the widget's methods, each over values: a method per loop,
 * proved to compute its specification function from Builder, Controller or
 * Persistence. The Widget class commits their results to its fields.
 */
module Loops {
  import opened Entities
  import opened Seqs
  import opened Builder
  import opened Controller
  import opened Persistence

  /**
   * The loop fetchCategories and fetchTemplates share: one group per row,
   * set under its OBJECTID with an empty layer list.
   */
  method GroupsFromRows(rows: seq<TitledRow>) returns (m: map<int, Group>)
    ensures m == BuildGroups(rows)
  {
    m := map[];
    var i := 0;
    while i < |rows|
      invariant 0 <= i <= |rows|
      invariant m == BuildGroups(rows[..i])
    {
      var f := rows[i];
      assert rows[..i + 1][..i] == rows[..i];
      m := m[f.objectId := Group(f.objectId, f.title, [])];
      i := i + 1;
    }
    assert rows[..i] == rows;
  }

  /**
   * The inner `active` loops of removeActiveLayer and removeActiveTemplate:
   * scan `xs` until an element that `ys` includes, then break.
   */
  method AnyIn(xs: seq<int>, ys: seq<int>) returns (found: bool)
    ensures found <==> Intersects(xs, ys)
  {
    found := false;
    var i := 0;
    while i < |xs|
      invariant 0 <= i <= |xs|
      invariant !found
      invariant forall j :: 0 <= j < i ==> xs[j] !in ys
    {
      if xs[i] in ys {
        var x := xs[i];
        assert x in xs && x in ys;
        found := true;
        break;
      }
      i := i + 1;
    }
    if !found {
      forall x | x in xs ensures x !in ys {
        var j :| 0 <= j < |xs| && xs[j] == x;
      }
    }
  }

  /**
   * fetchLayers' loop: each row becomes a wrapper under its OBJECTID and is
   * pushed onto its category's list in place when that category is loaded.
   */
  method WrappersFromLayerRows(categories: map<int, Category>, rows: seq<LayerRow>) returns (b: Built)
    ensures b == BuildWrappers(categories, rows)
  {
    var cats := categories;
    var newLayerWrappers: map<int, LayerWrapper> := map[];
    var i := 0;
    while i < |rows|
      invariant 0 <= i <= |rows|
      invariant Built(cats, newLayerWrappers) == BuildWrappers(categories, rows[..i])
    {
      var f := rows[i];
      var category := if f.categoryId in cats then Some(f.categoryId) else None;
      var w := LayerWrapper(f.objectId, f.scope + " " + f.title, f.url, f.filter, f.renderer, None, category, []);
      assert w == NewWrapper(categories, f);
      newLayerWrappers := newLayerWrappers[f.objectId := w];
      if f.categoryId in cats {
        var c := cats[f.categoryId];
        cats := cats[f.categoryId := c.(layerWrappers := c.layerWrappers + [f.objectId])];
      }
      assert rows[..i + 1][..i] == rows[..i];
      i := i + 1;
    }
    assert rows[..i] == rows;
    b := Built(cats, newLayerWrappers);
  }

  /** One pass of fetchTemplateLayers' loop body. */
  method LinkStep(templates: map<int, Template>, wrappers: map<int, LayerWrapper>, f: TemplateLayerRow)
    returns (l: Links)
    ensures l == LinkRow(Links(templates, wrappers, true), f)
  {
    if f.layerId !in wrappers {
      return Links(templates, wrappers, true);
    }
    if f.templateId !in templates {
      return Links(templates, wrappers, false);
    }
    var template := templates[f.templateId];
    var lw := wrappers[f.layerId];
    l := Links(templates[f.templateId := template.(layerWrappers := template.layerWrappers + [f.layerId])],
               wrappers[f.layerId := lw.(templates := lw.templates + [f.templateId])], true);
  }

  /**
   * fetchTemplateLayers' loop: a row whose LAYERID is loaded pushes in both
   * directions; an unknown TEMPLATEID for a loaded LAYERID throws at the
   * first push and ends the loop with the links made so far.
   */
  method LinkRows(templates: map<int, Template>, wrappers: map<int, LayerWrapper>, rows: seq<TemplateLayerRow>)
    returns (l: Links)
    ensures l == Link(templates, wrappers, rows)
  {
    l := Links(templates, wrappers, true);
    var i := 0;
    while i < |rows|
      invariant 0 <= i <= |rows|
      invariant l.ok && Link(templates, wrappers, rows[..i]) == l
    {
      assert rows[..i + 1] == rows[..i] + [rows[i]];
      LinkSnoc(templates, wrappers, rows[..i], rows[i]);
      l := LinkStep(l.templates, l.wrappers, rows[i]);
      if !l.ok {
        LinkStopsAtFailure(templates, wrappers, rows, i + 1);
        return;
      }
      i := i + 1;
    }
    assert rows[..i] == rows;
  }

  /**
   * addActiveTemplate's loop over the template's members: a member without
   * a live layer is materialized (awaiting createLayer, which succeeds for
   * the ids in `resolves`), then appended to `layers` unless present. The
   * first member that cannot be materialized rejects and ends the loop.
   */
  method AddTemplateMembers(wrappers: map<int, LayerWrapper>, layers: seq<int>, members: seq<int>, resolves: set<int>)
    returns (r: MemberPass)
    ensures r == AddMembers(wrappers, layers, members, resolves)
  {
    var newWrappers := wrappers;
    var newLayers := layers;
    var i := 0;
    while i < |members|
      invariant 0 <= i <= |members|
      invariant AddMembers(wrappers, layers, members[..i], resolves) == MemberPass(true, newWrappers, newLayers)
    {
      var w := members[i];
      assert members[..i + 1][..i] == members[..i];
      if LayerOf(newWrappers, w).None? {
        if w !in resolves {
          AddMembersStopsAtFailure(wrappers, layers, members, resolves, i + 1);
          return MemberPass(false, newWrappers, newLayers);
        }
        newWrappers := Materialize(newWrappers, w);
      }
      if w !in newLayers {
        newLayers := newLayers + [w];
      }
      i := i + 1;
    }
    assert members[..i] == members;
    r := MemberPass(true, newWrappers, newLayers);
  }

  /**
   * One pass of removeActiveLayer's loop: a template the wrapper lists is
   * dropped when scanning its members finds none still active.
   */
  method IsOrphan(templates: map<int, Template>, listed: seq<int>, t: int, remaining: seq<int>) returns (drop: bool)
    ensures drop <==> t in listed && !Intersects(MembersOf(templates, t), remaining)
  {
    drop := false;
    if t in listed {
      var active := AnyIn(MembersOf(templates, t), remaining);
      drop := !active;
    }
  }

  /**
   * removeActiveLayer's computation: filter out the active wrappers showing
   * `layer`, then loop over the originally active templates, dropping each
   * one the wrapper `+layer.id` lists that has no member left active. The
   * lookup of that wrapper throws, inside the loop, when its id is unknown.
   */
  method RemoveLayerFromActive(wrappers: map<int, LayerWrapper>, templates: map<int, Template>,
                               a: ActiveSets, layer: Layer) returns (r: Option<ActiveSets>)
    ensures r == RemoveLayer(wrappers, templates, a, layer)
  {
    var newActiveLayers := RemoveAll(a.layers, Showing(wrappers, a.layers, layer));
    var newActiveTemplates := a.templates;
    ghost var dropped: set<int> := {};
    RemoveAllNothing(a.templates, dropped);
    var i := 0;
    while i < |a.templates|
      invariant 0 <= i <= |a.templates|
      invariant layer.id !in wrappers ==> i == 0
      invariant dropped == Orphaned(wrappers, templates, a.templates[..i], layer.id, newActiveLayers)
      invariant newActiveTemplates == RemoveAll(a.templates, dropped)
    {
      var activeTemplate := a.templates[i];
      if layer.id !in wrappers {
        return None;
      }
      OrphanedNext(wrappers, templates, a.templates, i, layer.id, newActiveLayers);
      var drop := IsOrphan(templates, wrappers[layer.id].templates, activeTemplate, newActiveLayers);
      if drop {
        RemoveAllTwice(a.templates, dropped, {activeTemplate});
        newActiveTemplates := RemoveAll(newActiveTemplates, {activeTemplate});
        dropped := dropped + {activeTemplate};
      }
      i := i + 1;
    }
    assert a.templates[..i] == a.templates;
    r := Some(ActiveSets(newActiveLayers, newActiveTemplates));
  }

  /**
   * removeActiveTemplate's computation: filter out the template, then loop
   * over its members, filtering out each one that lists none of the
   * remaining active templates (the inner loop over them breaks at the
   * first it finds).
   */
  method RemoveTemplateFromActive(wrappers: map<int, LayerWrapper>, templates: map<int, Template>,
                                  a: ActiveSets, t: int) returns (r: ActiveSets)
    ensures r == RemoveTemplate(wrappers, templates, a, t)
  {
    var newActiveLayers := a.layers;
    var newActiveTemplates := RemoveAll(a.templates, {t});
    var members := MembersOf(templates, t);
    ghost var dropped: set<int> := {};
    RemoveAllNothing(a.layers, dropped);
    var i := 0;
    while i < |members|
      invariant 0 <= i <= |members|
      invariant dropped == Unreferenced(wrappers, members[..i], newActiveTemplates)
      invariant newActiveLayers == RemoveAll(a.layers, dropped)
    {
      var w := members[i];
      assert members[..i + 1] == members[..i] + [w];
      var active := AnyIn(newActiveTemplates, TemplatesOf(wrappers, w));
      if !active {
        RemoveAllTwice(a.layers, dropped, {w});
        newActiveLayers := RemoveAll(newActiveLayers, {w});
        dropped := dropped + {w};
      }
      i := i + 1;
    }
    assert members[..i] == members;
    r := ActiveSets(newActiveLayers, newActiveTemplates);
  }

  /**
   * getLayerTemplates' loop: the templates of `ts` that `active` includes,
   * in the order of `ts`.
   */
  method ActiveOnly(ts: seq<int>, active: seq<int>) returns (r: seq<int>)
    ensures forall x :: x in r <==> x in ts && x in active
    ensures r == RemoveAll(ts, set x | x in ts && x !in active)
  {
    ghost var inactive := set x | x in ts && x !in active;
    r := [];
    var i := 0;
    while i < |ts|
      invariant 0 <= i <= |ts|
      invariant r == RemoveAll(ts[..i], inactive)
    {
      assert ts[..i + 1] == ts[..i] + [ts[i]];
      assert ts[i] in ts;
      if ts[i] in active {
        r := r + [ts[i]];
      }
      i := i + 1;
    }
    assert ts[..i] == ts;
  }

  /**
   * saveTemplateLayers' loop: one relationship row for each layer on the
   * map whose numeric id is a loaded wrapper, in the map's order.
   */
  method RelationshipRows(templateId: int, allLayers: seq<Option<int>>, wrappers: map<int, LayerWrapper>)
    returns (rows: seq<TemplateLayerRow>)
    ensures rows == TemplateLayerRows(templateId, allLayers, wrappers.Keys)
  {
    rows := [];
    var i := 0;
    while i < |allLayers|
      invariant 0 <= i <= |allLayers|
      invariant rows == TemplateLayerRows(templateId, allLayers[..i], wrappers.Keys)
    {
      assert allLayers[..i + 1][..i] == allLayers[..i];
      var layer := allLayers[i];
      if layer.Some? && layer.value in wrappers {
        rows := rows + [TemplateLayerRow(templateId, layer.value)];
      }
      i := i + 1;
    }
    assert allLayers[..i] == allLayers;
  }
}
