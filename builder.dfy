/**
 * The entity builder: how the rows of the four tables become the Category,
 * Template and LayerWrapper maps and the links between them
 * (fetchCategories, fetchTemplates, fetchLayers, fetchTemplateLayers).
 * Each builder is a fold over the rows in query order, as the widget's
 * loops are.
 */
module Builder {
  import opened Entities
  import opened Seqs

  /** Row `i` is the last row with OBJECTID `id`. */
  ghost predicate LastRowWith(rows: seq<TitledRow>, i: int, id: int) {
    0 <= i < |rows| && rows[i].objectId == id &&
    forall j :: i < j < |rows| ==> rows[j].objectId != id
  }

  /**
   * The map fetchCategories and fetchTemplates build: one group per row under
   * its OBJECTID, with an empty layer list; a later row with the same
   * OBJECTID replaces an earlier one, as `Map.set` does.
   */
  function BuildGroups(rows: seq<TitledRow>): (m: map<int, Group>)
    ensures forall id :: id in m <==> exists i :: 0 <= i < |rows| && rows[i].objectId == id
    ensures forall id :: id in m ==>
      m[id].id == id && m[id].layerWrappers == [] &&
      exists i :: LastRowWith(rows, i, id) && rows[i].title == m[id].title
    decreases |rows|
  {
    if rows == [] then map[]
    else
      var p := rows[..|rows| - 1];
      var r := rows[|rows| - 1];
      var m := BuildGroups(p);
      assert forall i :: 0 <= i < |p| ==> p[i] == rows[i];
      assert forall id, i :: id != r.objectId && LastRowWith(p, i, id) ==> LastRowWith(rows, i, id);
      assert LastRowWith(rows, |rows| - 1, r.objectId);
      m[r.objectId := Group(r.objectId, r.title, [])]
  }

  /** The wrapper fetchLayers makes from a Layers row, before materialization. */
  function NewWrapper(categories: map<int, Category>, r: LayerRow): LayerWrapper {
    LayerWrapper(
      r.objectId, r.scope + " " + r.title, r.url, r.filter, r.renderer,
      None, if r.categoryId in categories then Some(r.categoryId) else None, [])
  }

  /** The ids of the Layers rows that name category `c`, in row order. */
  function IdsInCategory(rows: seq<LayerRow>, c: int): (ids: seq<int>)
    ensures forall id :: id in ids <==>
      exists i :: 0 <= i < |rows| && rows[i].objectId == id && rows[i].categoryId == c
    decreases |rows|
  {
    if rows == [] then []
    else
      var p := rows[..|rows| - 1];
      var r := rows[|rows| - 1];
      assert forall i :: 0 <= i < |p| ==> p[i] == rows[i];
      IdsInCategory(p, c) + (if r.categoryId == c then [r.objectId] else [])
  }

  /** Row `i` is the last Layers row with OBJECTID `id`. */
  ghost predicate LastLayerRowWith(rows: seq<LayerRow>, i: int, id: int) {
    0 <= i < |rows| && rows[i].objectId == id &&
    forall j :: i < j < |rows| ==> rows[j].objectId != id
  }

  /** The category map after fetchLayers' pushes, and the wrapper map it builds. */
  datatype Built = Built(categories: map<int, Category>, wrappers: map<int, LayerWrapper>)

  /**
   * fetchLayers: every row becomes a wrapper under its OBJECTID (set into the
   * map before anything can fail) and is then pushed onto its category's
   * list; a row whose category is missing throws at the push, which is
   * caught, so the wrapper stays in the map and no list changes.
   */
  function BuildWrappers(categories: map<int, Category>, rows: seq<LayerRow>): (b: Built)
    ensures b.categories.Keys == categories.Keys
    ensures forall id :: id in b.wrappers <==> exists i :: 0 <= i < |rows| && rows[i].objectId == id
    ensures forall id :: id in b.wrappers ==>
      exists i :: LastLayerRowWith(rows, i, id) && b.wrappers[id] == NewWrapper(categories, rows[i])
    ensures forall c :: c in categories ==>
      b.categories[c] == categories[c].(layerWrappers := categories[c].layerWrappers + IdsInCategory(rows, c))
    decreases |rows|
  {
    if rows == [] then Built(categories, map[])
    else
      var p := rows[..|rows| - 1];
      var r := rows[|rows| - 1];
      var prev := BuildWrappers(categories, p);
      assert forall i :: 0 <= i < |p| ==> p[i] == rows[i];
      assert forall id, i :: id != r.objectId && LastLayerRowWith(p, i, id) ==> LastLayerRowWith(rows, i, id);
      assert LastLayerRowWith(rows, |rows| - 1, r.objectId);
      var wrappers := prev.wrappers[r.objectId := NewWrapper(categories, r)];
      if r.categoryId in prev.categories then
        var c := prev.categories[r.categoryId];
        Built(prev.categories[r.categoryId := c.(layerWrappers := c.layerWrappers + [r.objectId])], wrappers)
      else
        Built(prev.categories, wrappers)
  }

  /**
   * After fetchLayers each wrapper's title is SCOPE + " " + TITLE of its row,
   * it has no live layer and no template yet, and its category is the row's
   * CATEGORYID exactly when that category is loaded; a wrapper that has a
   * category is in that category's list.
   */
  lemma {:induction false} WrappersFromRows(categories: map<int, Category>, rows: seq<LayerRow>, id: int)
    requires exists i :: 0 <= i < |rows| && rows[i].objectId == id
    ensures var b := BuildWrappers(categories, rows);
      var w := b.wrappers[id];
      exists i :: 0 <= i < |rows| && rows[i].objectId == id &&
        w.id == id && w.title == rows[i].scope + " " + rows[i].title &&
        w.layer.None? && w.templates == [] &&
        (w.category.Some? <==> rows[i].categoryId in categories) &&
        (w.category.Some? ==>
           w.category.value == rows[i].categoryId &&
           w.category.value in b.categories &&
           id in b.categories[w.category.value].layerWrappers)
  {
    var b := BuildWrappers(categories, rows);
    assert id in b.wrappers;
    var i :| LastLayerRowWith(rows, i, id) && b.wrappers[id] == NewWrapper(categories, rows[i]);
    var c := rows[i].categoryId;
    if c in categories {
      assert id in IdsInCategory(rows, c);
      assert b.categories[c].layerWrappers == categories[c].layerWrappers + IdsInCategory(rows, c);
    }
  }

  /**
   * The wrapper map fetchLayers builds is keyed by each wrapper's own id, no
   * wrapper has a live layer yet, and each wrapper with a category is in
   * that category's list.
   */
  lemma {:induction false} BuiltWrappersLinked(categories: map<int, Category>, rows: seq<LayerRow>)
    ensures var b := BuildWrappers(categories, rows);
      forall id :: id in b.wrappers ==>
        b.wrappers[id].id == id && b.wrappers[id].layer.None? &&
        (b.wrappers[id].category.Some? ==>
           b.wrappers[id].category.value in b.categories &&
           id in b.categories[b.wrappers[id].category.value].layerWrappers)
  {
    var b := BuildWrappers(categories, rows);
    forall id | id in b.wrappers
      ensures b.wrappers[id].id == id && b.wrappers[id].layer.None? &&
        (b.wrappers[id].category.Some? ==>
           b.wrappers[id].category.value in b.categories &&
           id in b.categories[b.wrappers[id].category.value].layerWrappers)
    {
      WrappersFromRows(categories, rows, id);
    }
  }

  /**
   * A full load leaves the maps well formed: fresh templates have no
   * members, and each wrapper carries its own id, no live layer yet, and is
   * listed by its category.
   */
  lemma {:induction false} LoadedWellFormed(categoryRows: seq<TitledRow>, templateRows: seq<TitledRow>, rows: seq<LayerRow>)
    ensures var b := BuildWrappers(BuildGroups(categoryRows), rows);
      WellFormed(b.categories, BuildGroups(templateRows), b.wrappers)
  {
    BuiltWrappersLinked(BuildGroups(categoryRows), rows);
  }

  /** Layers rows have pairwise distinct OBJECTIDs (they are the table's key). */
  ghost predicate DistinctIds(rows: seq<LayerRow>) {
    forall i, j :: 0 <= i < j < |rows| ==> rows[i].objectId != rows[j].objectId
  }

  lemma {:induction false} IdsInCategoryNoDup(rows: seq<LayerRow>, c: int)
    requires DistinctIds(rows)
    ensures NoDup(IdsInCategory(rows, c))
    decreases |rows|
  {
    if rows != [] {
      var p := rows[..|rows| - 1];
      var r := rows[|rows| - 1];
      assert forall i :: 0 <= i < |p| ==> p[i] == rows[i];
      IdsInCategoryNoDup(p, c);
      if r.categoryId == c {
        NoDupSnoc(IdsInCategory(p, c), r.objectId);
      }
    }
  }

  /**
   * With distinct OBJECTIDs and freshly loaded categories, every category
   * list is free of duplicates and no wrapper is in two categories' lists.
   */
  lemma {:induction false} CategoryListsPartition(categoryRows: seq<TitledRow>, rows: seq<LayerRow>)
    requires DistinctIds(rows)
    ensures var b := BuildWrappers(BuildGroups(categoryRows), rows);
      (forall c :: c in b.categories ==> NoDup(b.categories[c].layerWrappers)) &&
      (forall c1, c2, id ::
         (c1 in b.categories && c2 in b.categories &&
          id in b.categories[c1].layerWrappers && id in b.categories[c2].layerWrappers) ==> c1 == c2)
  {
    var cats := BuildGroups(categoryRows);
    var b := BuildWrappers(cats, rows);
    forall c | c in b.categories ensures NoDup(b.categories[c].layerWrappers) {
      IdsInCategoryNoDup(rows, c);
      ConcatNil(cats[c].layerWrappers, IdsInCategory(rows, c));
    }
    forall c1, c2, id | c1 in b.categories && c2 in b.categories &&
        id in b.categories[c1].layerWrappers && id in b.categories[c2].layerWrappers
      ensures c1 == c2
    {
      ConcatNil(cats[c1].layerWrappers, IdsInCategory(rows, c1));
      ConcatNil(cats[c2].layerWrappers, IdsInCategory(rows, c2));
      var i :| 0 <= i < |rows| && rows[i].objectId == id && rows[i].categoryId == c1;
      var j :| 0 <= j < |rows| && rows[j].objectId == id && rows[j].categoryId == c2;
      assert i == j;
    }
  }

  /** The LAYERIDs of the rows for template `t` whose layer is known, in row order. */
  function RowLayers(rows: seq<TemplateLayerRow>, t: int, known: set<int>): (ids: seq<int>)
    ensures forall id :: id in ids ==> id in known
    decreases |rows|
  {
    if rows == [] then []
    else
      var r := rows[|rows| - 1];
      RowLayers(rows[..|rows| - 1], t, known) +
        (if r.templateId == t && r.layerId in known then [r.layerId] else [])
  }

  /** The TEMPLATEIDs of the rows for layer `w`, in row order. */
  function RowTemplates(rows: seq<TemplateLayerRow>, w: int): (ids: seq<int>)
    ensures forall t :: t in ids <==> exists i :: 0 <= i < |rows| && rows[i].layerId == w && rows[i].templateId == t
    decreases |rows|
  {
    if rows == [] then []
    else
      var p := rows[..|rows| - 1];
      var r := rows[|rows| - 1];
      assert forall i :: 0 <= i < |p| ==> p[i] == rows[i];
      RowTemplates(p, w) + (if r.layerId == w then [r.templateId] else [])
  }

  lemma {:induction false} RowTemplatesConcat(a: seq<TemplateLayerRow>, b: seq<TemplateLayerRow>, w: int)
    ensures RowTemplates(a + b, w) == RowTemplates(a, w) + RowTemplates(b, w)
    decreases |b|
  {
    if b == [] {
      assert a + b == a;
    } else {
      var p := b[..|b| - 1];
      assert (a + b)[..|a + b| - 1] == a + p;
      RowTemplatesConcat(a, p, w);
    }
  }

  /** The template and wrapper maps after fetchTemplateLayers, and whether it finished. */
  datatype Links = Links(templates: map<int, Template>, wrappers: map<int, LayerWrapper>, ok: bool)

  /**
   * One row of fetchTemplateLayers' loop: a row whose LAYERID is a loaded
   * wrapper pushes the wrapper onto the template's list and the template
   * onto the wrapper's list; a row with an unknown LAYERID is skipped; a row
   * with a known LAYERID but an unknown TEMPLATEID throws at the first push,
   * which ends the stage with the links made so far.
   */
  function LinkRow(prev: Links, r: TemplateLayerRow): (l: Links)
    ensures l.templates.Keys == prev.templates.Keys && l.wrappers.Keys == prev.wrappers.Keys
    ensures l.ok <==> prev.ok && (r.layerId in prev.wrappers ==> r.templateId in prev.templates)
    ensures !l.ok ==> l.templates == prev.templates && l.wrappers == prev.wrappers
    ensures l.ok ==> forall t :: t in l.templates ==>
      l.templates[t] == prev.templates[t].(layerWrappers := prev.templates[t].layerWrappers +
        (if r.templateId == t && r.layerId in prev.wrappers then [r.layerId] else []))
    ensures l.ok ==> forall w :: w in l.wrappers ==>
      l.wrappers[w] == prev.wrappers[w].(templates := prev.wrappers[w].templates +
        (if r.layerId == w then [r.templateId] else []))
  {
    if !prev.ok || r.layerId !in prev.wrappers then prev
    else if r.templateId !in prev.templates then prev.(ok := false)
    else
      var t := prev.templates[r.templateId];
      var w := prev.wrappers[r.layerId];
      Links(prev.templates[r.templateId := t.(layerWrappers := t.layerWrappers + [r.layerId])],
            prev.wrappers[r.layerId := w.(templates := w.templates + [r.templateId])],
            true)
  }

  /**
   * fetchTemplateLayers: the rows in query order, each applied by LinkRow;
   * only the member and template lists change, and every member is a loaded
   * wrapper or was already a member.
   */
  function Link(templates: map<int, Template>, wrappers: map<int, LayerWrapper>, rows: seq<TemplateLayerRow>): (l: Links)
    ensures l.templates.Keys == templates.Keys && l.wrappers.Keys == wrappers.Keys
    ensures forall t :: t in l.templates ==>
      l.templates[t] == templates[t].(layerWrappers := l.templates[t].layerWrappers)
    ensures forall w :: w in l.wrappers ==>
      l.wrappers[w] == wrappers[w].(templates := l.wrappers[w].templates)
    ensures forall t, w :: w in MembersOf(l.templates, t) ==> w in MembersOf(templates, t) || w in wrappers
    decreases |rows|
  {
    if rows == [] then Links(templates, wrappers, true)
    else LinkRow(Link(templates, wrappers, rows[..|rows| - 1]), rows[|rows| - 1])
  }

  /**
   * Linking keeps the maps well formed and changes no wrapper's live layer:
   * only the member and template lists grow.
   */
  lemma {:induction false} LinkWellFormed(categories: map<int, Category>, templates: map<int, Template>,
                                          wrappers: map<int, LayerWrapper>, rows: seq<TemplateLayerRow>)
    requires WellFormed(categories, templates, wrappers)
    ensures var l := Link(templates, wrappers, rows);
      WellFormed(categories, l.templates, l.wrappers) &&
      forall w :: w in wrappers ==> l.wrappers[w].layer == wrappers[w].layer
  {
    var l := Link(templates, wrappers, rows);
    forall w | w in l.wrappers ensures l.wrappers[w] == wrappers[w].(templates := l.wrappers[w].templates) {
    }
    forall t, w | w in MembersOf(l.templates, t) ensures w in l.wrappers {
    }
    LinkKeepsMembersListed(templates, wrappers, rows);
  }

  /** Reloaded templates have no members yet, so the maps stay well formed. */
  lemma {:induction false} FreshTemplatesWellFormed(categories: map<int, Category>, templates: map<int, Template>,
                                                    wrappers: map<int, LayerWrapper>, rows: seq<TitledRow>)
    requires WellFormed(categories, templates, wrappers)
    ensures WellFormed(categories, BuildGroups(rows), wrappers)
  {
  }

  /** One more row is one more LinkRow step. */
  lemma {:induction false} LinkSnoc(templates: map<int, Template>, wrappers: map<int, LayerWrapper>,
                                    rows: seq<TemplateLayerRow>, r: TemplateLayerRow)
    ensures Link(templates, wrappers, rows + [r]) == LinkRow(Link(templates, wrappers, rows), r)
  {
    assert (rows + [r])[..|rows|] == rows;
  }

  /**
   * One row adds the same pair to both sides: the template gains the wrapper
   * exactly when the wrapper gains the template.
   */
  lemma {:induction false} LinkRowPairs(prev: Links, r: TemplateLayerRow)
    ensures var l := LinkRow(prev, r);
      var added := l.ok && prev.ok && r.layerId in prev.wrappers;
      (forall t, w :: w in MembersOf(l.templates, t) <==>
         w in MembersOf(prev.templates, t) || (added && t == r.templateId && w == r.layerId)) &&
      (forall t, w :: t in TemplatesOf(l.wrappers, w) <==>
         t in TemplatesOf(prev.wrappers, w) || (added && t == r.templateId && w == r.layerId))
  {
  }

  /**
   * Linking keeps every member listing its template, whatever else the
   * wrappers' lists hold, and also when a row throws part-way.
   */
  lemma {:induction false} LinkKeepsMembersListed(templates: map<int, Template>, wrappers: map<int, LayerWrapper>,
                                                  rows: seq<TemplateLayerRow>)
    requires MembersListed(templates, wrappers)
    ensures var l := Link(templates, wrappers, rows);
      MembersListed(l.templates, l.wrappers)
    decreases |rows|
  {
    if rows != [] {
      var p := rows[..|rows| - 1];
      LinkKeepsMembersListed(templates, wrappers, p);
      LinkRowPairs(Link(templates, wrappers, p), rows[|rows| - 1]);
    }
  }

  /** Linking keeps symmetric links symmetric, whether or not the stage completes. */
  lemma {:induction false} LinkKeepsSymmetric(templates: map<int, Template>, wrappers: map<int, LayerWrapper>,
                                              rows: seq<TemplateLayerRow>)
    requires Symmetric(templates, wrappers)
    ensures var l := Link(templates, wrappers, rows);
      Symmetric(l.templates, l.wrappers)
    decreases |rows|
  {
    if rows != [] {
      var p := rows[..|rows| - 1];
      LinkKeepsSymmetric(templates, wrappers, p);
      LinkRowPairs(Link(templates, wrappers, p), rows[|rows| - 1]);
    }
  }

  /**
   * Linking into freshly built templates makes every member list its
   * template, whatever the wrappers' lists held before, as after the reload
   * that follows a save.
   */
  lemma {:induction false} LinkMembersListed(templateRows: seq<TitledRow>, wrappers: map<int, LayerWrapper>,
                                             rows: seq<TemplateLayerRow>)
    ensures var l := Link(BuildGroups(templateRows), wrappers, rows);
      MembersListed(l.templates, l.wrappers)
  {
    LinkKeepsMembersListed(BuildGroups(templateRows), wrappers, rows);
  }

  /** Every row whose LAYERID is a loaded wrapper names a loaded template. */
  ghost predicate RowsResolve(templates: map<int, Template>, wrappers: map<int, LayerWrapper>, rows: seq<TemplateLayerRow>) {
    forall i :: 0 <= i < |rows| && rows[i].layerId in wrappers ==> rows[i].templateId in templates
  }

  /**
   * Once a row has failed, the later rows change nothing: the stage ends with
   * the links made before the failing row.
   */
  lemma {:induction false} LinkStopsAtFailure(templates: map<int, Template>, wrappers: map<int, LayerWrapper>,
                                              rows: seq<TemplateLayerRow>, k: int)
    requires 0 <= k <= |rows| && !Link(templates, wrappers, rows[..k]).ok
    ensures Link(templates, wrappers, rows) == Link(templates, wrappers, rows[..k])
    decreases |rows|
  {
    if k == |rows| {
      assert rows[..k] == rows;
    } else {
      var p := rows[..|rows| - 1];
      assert p[..k] == rows[..k];
      LinkStopsAtFailure(templates, wrappers, p, k);
    }
  }

  /** The relationship stage completes exactly when every row with a known layer names a known template. */
  lemma {:induction false} LinkOk(templates: map<int, Template>, wrappers: map<int, LayerWrapper>, rows: seq<TemplateLayerRow>)
    ensures Link(templates, wrappers, rows).ok <==> RowsResolve(templates, wrappers, rows)
    decreases |rows|
  {
    if rows != [] {
      var p := rows[..|rows| - 1];
      var r := rows[|rows| - 1];
      var prev := Link(templates, wrappers, p);
      LinkOk(templates, wrappers, p);
      assert Link(templates, wrappers, rows) == LinkRow(prev, r);
      RowsResolveSnoc(templates, wrappers, rows);
    }
  }

  lemma RowsResolveSnoc(templates: map<int, Template>, wrappers: map<int, LayerWrapper>, rows: seq<TemplateLayerRow>)
    requires rows != []
    ensures var r := rows[|rows| - 1];
      RowsResolve(templates, wrappers, rows) <==>
        RowsResolve(templates, wrappers, rows[..|rows| - 1]) && (r.layerId in wrappers ==> r.templateId in templates)
  {
    var p := rows[..|rows| - 1];
    assert forall i :: 0 <= i < |p| ==> p[i] == rows[i];
  }

  /**
   * When the relationship stage completes, each template's list has gained
   * the known LAYERIDs of its rows and each wrapper's list the TEMPLATEIDs of
   * its rows, both in row order.
   */
  lemma {:induction false} LinkAppends(templates: map<int, Template>, wrappers: map<int, LayerWrapper>, rows: seq<TemplateLayerRow>)
    requires Link(templates, wrappers, rows).ok
    ensures var l := Link(templates, wrappers, rows);
      (forall t :: t in templates ==>
         l.templates[t].layerWrappers == templates[t].layerWrappers + RowLayers(rows, t, wrappers.Keys)) &&
      (forall w :: w in wrappers ==>
         l.wrappers[w].templates == wrappers[w].templates + RowTemplates(rows, w))
    decreases |rows|
  {
    if rows != [] {
      var p := rows[..|rows| - 1];
      var r := rows[|rows| - 1];
      var known := wrappers.Keys;
      var prev := Link(templates, wrappers, p);
      assert prev.ok;
      LinkAppends(templates, wrappers, p);
      var l := LinkRow(prev, r);
      forall t | t in templates
        ensures l.templates[t].layerWrappers == templates[t].layerWrappers + RowLayers(rows, t, known)
      {
        var extra := if r.templateId == t && r.layerId in known then [r.layerId] else [];
        var before := templates[t].layerWrappers;
        assert RowLayers(rows, t, known) == RowLayers(p, t, known) + extra;
        assert l.templates[t].layerWrappers == (before + RowLayers(p, t, known)) + extra;
        ConcatAssoc(before, RowLayers(p, t, known), extra);
      }
      forall w | w in wrappers
        ensures l.wrappers[w].templates == wrappers[w].templates + RowTemplates(rows, w)
      {
        var extra := if r.layerId == w then [r.templateId] else [];
        var before := wrappers[w].templates;
        assert RowTemplates(rows, w) == RowTemplates(p, w) + extra;
        assert l.wrappers[w].templates == (before + RowTemplates(p, w)) + extra;
        ConcatAssoc(before, RowTemplates(p, w), extra);
      }
    }
  }

  lemma {:induction false} LinkCounts(rows: seq<TemplateLayerRow>, t: int, w: int, known: set<int>)
    requires w in known
    ensures Count(RowLayers(rows, t, known), w) == Count(RowTemplates(rows, w), t)
    decreases |rows|
  {
    if rows != [] {
      var p := rows[..|rows| - 1];
      LinkCounts(p, t, w, known);
      var a := RowLayers(p, t, known);
      var b := RowTemplates(p, w);
      var r := rows[|rows| - 1];
      var x := if r.templateId == t && r.layerId in known then [r.layerId] else [];
      var y := if r.layerId == w then [r.templateId] else [];
      CountConcat(a, x, w);
      CountConcat(b, y, t);
      assert Count(x, w) == Count(y, t) by {
        if x != [] { assert x[..0] == []; }
        if y != [] { assert y[..0] == []; }
      }
    }
  }

  /**
   * Links made from fresh lists are symmetric: a wrapper lists a template
   * exactly when the template lists the wrapper, also when a row throws
   * part-way. A completed stage has the same number of duplicates on both
   * sides.
   */
  lemma {:induction false} FreshLinksSymmetric(templates: map<int, Template>, wrappers: map<int, LayerWrapper>, rows: seq<TemplateLayerRow>)
    requires forall t :: t in templates ==> templates[t].layerWrappers == []
    requires forall w :: w in wrappers ==> wrappers[w].templates == []
    ensures var l := Link(templates, wrappers, rows);
      Symmetric(l.templates, l.wrappers) &&
      (l.ok ==> forall t, w :: Count(MembersOf(l.templates, t), w) == Count(TemplatesOf(l.wrappers, w), t))
  {
    LinkKeepsSymmetric(templates, wrappers, rows);
    if Link(templates, wrappers, rows).ok {
      FreshLinkCounts(templates, wrappers, rows);
    }
  }

  lemma {:induction false} FreshLinkCounts(templates: map<int, Template>, wrappers: map<int, LayerWrapper>, rows: seq<TemplateLayerRow>)
    requires forall t :: t in templates ==> templates[t].layerWrappers == []
    requires forall w :: w in wrappers ==> wrappers[w].templates == []
    requires Link(templates, wrappers, rows).ok
    ensures var l := Link(templates, wrappers, rows);
      forall t, w :: Count(MembersOf(l.templates, t), w) == Count(TemplatesOf(l.wrappers, w), t)
  {
    var l := Link(templates, wrappers, rows);
    var known := wrappers.Keys;
    LinkOk(templates, wrappers, rows);
    LinkAppends(templates, wrappers, rows);
    forall t, w ensures Count(MembersOf(l.templates, t), w) == Count(TemplatesOf(l.wrappers, w), t) {
      if t in templates {
        ConcatNil(templates[t].layerWrappers, RowLayers(rows, t, known));
        assert MembersOf(l.templates, t) == RowLayers(rows, t, known);
      }
      if w in wrappers {
        ConcatNil(wrappers[w].templates, RowTemplates(rows, w));
        assert TemplatesOf(l.wrappers, w) == RowTemplates(rows, w);
      }
      if t in templates && w in wrappers {
        LinkCounts(rows, t, w, known);
      } else if w in wrappers {
        CountPositive(RowTemplates(rows, w), t);
        CountPositive(MembersOf(l.templates, t), w);
      } else {
        CountPositive(MembersOf(l.templates, t), w);
      }
    }
  }

  /**
   * The reload after a save rebuilds the templates with empty lists but
   * keeps the wrappers' lists, then links the earlier rows followed by the
   * rows the save wrote. Each rebuilt template lists exactly its rows' known
   * layers, while each wrapper lists every template loaded before the save
   * twice and the new template once.
   */
  lemma {:induction false} ReloadDuplicatesWrapperLinks(templates: map<int, Template>, wrappers: map<int, LayerWrapper>,
                                                        rows: seq<TemplateLayerRow>, reloaded: map<int, Template>,
                                                        written: seq<TemplateLayerRow>)
    requires forall w :: w in wrappers ==> wrappers[w].templates == []
    requires Link(templates, wrappers, rows).ok
    requires forall t :: t in reloaded ==> reloaded[t].layerWrappers == []
    requires RowsResolve(reloaded, wrappers, rows + written)
    ensures var first := Link(templates, wrappers, rows);
      var second := Link(reloaded, first.wrappers, rows + written);
      second.ok &&
      (forall t :: t in reloaded ==> second.templates[t].layerWrappers == RowLayers(rows + written, t, wrappers.Keys)) &&
      forall w :: w in wrappers ==>
        second.wrappers[w].templates == RowTemplates(rows, w) + RowTemplates(rows, w) + RowTemplates(written, w)
  {
    var first := Link(templates, wrappers, rows);
    LinkOk(templates, wrappers, rows);
    LinkAppends(templates, wrappers, rows);
    assert first.wrappers.Keys == wrappers.Keys;
    assert RowsResolve(reloaded, first.wrappers, rows + written);
    LinkOk(reloaded, first.wrappers, rows + written);
    LinkAppends(reloaded, first.wrappers, rows + written);
    var second := Link(reloaded, first.wrappers, rows + written);
    forall w | w in wrappers
      ensures second.wrappers[w].templates == RowTemplates(rows, w) + RowTemplates(rows, w) + RowTemplates(written, w)
    {
      ConcatNil(wrappers[w].templates, RowTemplates(rows, w));
      RowTemplatesConcat(rows, written, w);
      ConcatAssoc(RowTemplates(rows, w), RowTemplates(rows, w), RowTemplates(written, w));
    }
    forall t | t in reloaded
      ensures second.templates[t].layerWrappers == RowLayers(rows + written, t, wrappers.Keys)
    {
      ConcatNil(reloaded[t].layerWrappers, RowLayers(rows + written, t, wrappers.Keys));
    }
  }
}
