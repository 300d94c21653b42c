/**
 * Template persistence: the guards of saveTemplate, the relationship rows
 * saveTemplateLayers writes, and what a reload then shows. The count query,
 * the token, both inserts and the map's layer list are inputs; the calls
 * the save issues are its observable output.
 */
module Persistence {
  import opened Entities
  import opened Builder

  /** One entry of an insert response's `addResults`. */
  datatype AddResult = AddResult(success: bool, objectId: int)

  /** A remote call saveTemplate issues. */
  datatype Call =
    | CountTitle(title: string)
    | RequestToken
    | InsertTemplate(title: string)
    | InsertTemplateLayers(rows: seq<TemplateLayerRow>)

  /**
   * How a save ends: no title, a template with that title already exists,
   * some call was rejected or reported failure, or both inserts succeeded
   * (with the new template's OBJECTID).
   */
  datatype SaveOutcome = NeedsTitle | TitleTaken | SaveFailed | Inserted(templateId: int)

  datatype SaveStep = SaveStep(outcome: SaveOutcome, calls: seq<Call>)

  /**
   * `response.addResults[0].success`: only the first result is checked, and
   * reading it from an empty array throws, which counts as a failure.
   */
  predicate FirstSucceeded(r: Remote<seq<AddResult>>) {
    r.Ok? && |r.value| > 0 && r.value[0].success
  }

  /**
   * The rows saveTemplateLayers writes: one per layer on the map, in the
   * map's order, whose numeric id (`+layer.id`, None when it is not a
   * number) is a loaded wrapper; basemaps and other foreign layers drop out.
   */
  function TemplateLayerRows(templateId: int, allLayers: seq<Option<int>>, known: set<int>): (rows: seq<TemplateLayerRow>)
    ensures forall i :: 0 <= i < |rows| ==>
      rows[i].templateId == templateId && rows[i].layerId in known && Some(rows[i].layerId) in allLayers
    ensures forall id :: id in known && Some(id) in allLayers ==> TemplateLayerRow(templateId, id) in rows
    decreases |allLayers|
  {
    if allLayers == [] then []
    else
      var p := allLayers[..|allLayers| - 1];
      var last := allLayers[|allLayers| - 1];
      assert allLayers == p + [last];
      TemplateLayerRows(templateId, p, known) +
        (if last.Some? && last.value in known then [TemplateLayerRow(templateId, last.value)] else [])
  }

  /**
   * The rows follow the map's layer order: the rows for two stretches of
   * the layer collection are the rows for the first followed by those for
   * the second.
   */
  lemma {:induction false} TemplateLayerRowsConcat(templateId: int, a: seq<Option<int>>, b: seq<Option<int>>, known: set<int>)
    ensures TemplateLayerRows(templateId, a + b, known) ==
      TemplateLayerRows(templateId, a, known) + TemplateLayerRows(templateId, b, known)
    decreases |b|
  {
    if b == [] {
      assert a + b == a;
    } else {
      var p := b[..|b| - 1];
      assert (a + b)[..|a + b| - 1] == a + p;
      TemplateLayerRowsConcat(templateId, a, p, known);
    }
  }

  /** One map layer gives one row exactly when its numeric id is a loaded wrapper. */
  lemma {:induction false} TemplateLayerRowsOne(templateId: int, layer: Option<int>, known: set<int>)
    ensures TemplateLayerRows(templateId, [layer], known) ==
      if layer.Some? && layer.value in known then [TemplateLayerRow(templateId, layer.value)] else []
  {
    assert [layer][..0] == [];
  }

  /**
   * saveTemplate up to the reload: an empty title is refused before any
   * call; a title already counted in the Templates table is refused before
   * the token is requested; the relationship rows are written only after the
   * template insert reported success.
   */
  function Save(title: string, count: Remote<int>, token: Remote<string>, insert: Remote<seq<AddResult>>,
                allLayers: seq<Option<int>>, known: set<int>, layersInsert: Remote<seq<AddResult>>): (s: SaveStep)
    ensures s.outcome == NeedsTitle <==> title == ""
    ensures title == "" ==> s.calls == []
    ensures title != "" && count.Ok? && count.value > 0 ==> s == SaveStep(TitleTaken, [CountTitle(title)])
    ensures RequestToken in s.calls ==> title != "" && count.Ok? && count.value <= 0
    ensures InsertTemplate(title) in s.calls ==> RequestToken in s.calls && token.Ok?
    ensures forall i :: 0 <= i < |s.calls| && s.calls[i].InsertTemplateLayers? ==>
      FirstSucceeded(insert) && s.calls[i].rows == TemplateLayerRows(insert.value[0].objectId, allLayers, known)
    ensures s.outcome.Inserted? <==>
      title != "" && count.Ok? && count.value <= 0 && token.Ok? && FirstSucceeded(insert) && FirstSucceeded(layersInsert)
    ensures s.outcome.Inserted? ==> s.outcome.templateId == insert.value[0].objectId
    ensures title != "" ==> |s.calls| > 0 && s.calls[0] == CountTitle(title)
    ensures s.outcome.Inserted? ==>
      s.calls == [CountTitle(title), RequestToken, InsertTemplate(title),
                  InsertTemplateLayers(TemplateLayerRows(insert.value[0].objectId, allLayers, known))]
    ensures s.outcome == TitleTaken <==> title != "" && count.Ok? && count.value > 0
    ensures title != "" && count.Ok? && count.value <= 0 ==> RequestToken in s.calls
    ensures title != "" && count.Ok? && count.value <= 0 && token.Ok? ==> InsertTemplate(title) in s.calls
    ensures title != "" && count.Ok? && count.value <= 0 && token.Ok? && FirstSucceeded(insert) ==>
      InsertTemplateLayers(TemplateLayerRows(insert.value[0].objectId, allLayers, known)) in s.calls
    ensures |s.calls| <= 4
    ensures forall i :: 0 <= i < |s.calls| ==>
      (i == 0 ==> s.calls[i] == CountTitle(title)) &&
      (i == 1 ==> s.calls[i] == RequestToken) &&
      (i == 2 ==> s.calls[i] == InsertTemplate(title)) &&
      (i == 3 ==> FirstSucceeded(insert) &&
                  s.calls[i] == InsertTemplateLayers(TemplateLayerRows(insert.value[0].objectId, allLayers, known)))
    ensures s.outcome == SaveFailed <==>
      title != "" && (count.Rejected? || (count.value <= 0 && !(token.Ok? && FirstSucceeded(insert) && FirstSucceeded(layersInsert))))
  {
    if title == "" then SaveStep(NeedsTitle, [])
    else if count.Rejected? then SaveStep(SaveFailed, [CountTitle(title)])
    else if count.value > 0 then SaveStep(TitleTaken, [CountTitle(title)])
    else if token.Rejected? then SaveStep(SaveFailed, [CountTitle(title), RequestToken])
    else
      var calls := [CountTitle(title), RequestToken, InsertTemplate(title)];
      if !FirstSucceeded(insert) then SaveStep(SaveFailed, calls)
      else
        var id := insert.value[0].objectId;
        var written := calls + [InsertTemplateLayers(TemplateLayerRows(id, allLayers, known))];
        if FirstSucceeded(layersInsert) then SaveStep(Inserted(id), written)
        else SaveStep(SaveFailed, written)
  }

  /**
   * The calls happen in order: without a token neither insert is issued,
   * and without a successful template insert no relationship rows are
   * written.
   */
  lemma {:induction false} SaveCallsInOrder(title: string, count: Remote<int>, token: Remote<string>,
                                            insert: Remote<seq<AddResult>>, allLayers: seq<Option<int>>,
                                            known: set<int>, layersInsert: Remote<seq<AddResult>>)
    ensures var s := Save(title, count, token, insert, allLayers, known, layersInsert);
      (token.Rejected? ==> forall c :: c in s.calls ==> !c.InsertTemplate? && !c.InsertTemplateLayers?) &&
      (!FirstSucceeded(insert) ==> forall c :: c in s.calls ==> !c.InsertTemplateLayers?)
  {
    var s := Save(title, count, token, insert, allLayers, known, layersInsert);
    forall c | c in s.calls
      ensures token.Rejected? ==> !c.InsertTemplate? && !c.InsertTemplateLayers?
      ensures !FirstSucceeded(insert) ==> !c.InsertTemplateLayers?
    {
      var i :| 0 <= i < |s.calls| && s.calls[i] == c;
    }
  }

  /** The LAYERIDs of a sequence of rows, in order. */
  function LayerIds(rows: seq<TemplateLayerRow>): (ids: seq<int>)
    ensures |ids| == |rows| && forall i :: 0 <= i < |rows| ==> ids[i] == rows[i].layerId
    decreases |rows|
  {
    if rows == [] then [] else LayerIds(rows[..|rows| - 1]) + [rows[|rows| - 1].layerId]
  }

  lemma {:induction false} RowLayersConcat(a: seq<TemplateLayerRow>, b: seq<TemplateLayerRow>, t: int, known: set<int>)
    ensures RowLayers(a + b, t, known) == RowLayers(a, t, known) + RowLayers(b, t, known)
    decreases |b|
  {
    if b == [] {
      assert a + b == a;
    } else {
      var p := b[..|b| - 1];
      assert (a + b)[..|a + b| - 1] == a + p;
      RowLayersConcat(a, p, t, known);
    }
  }

  lemma {:induction false} RowLayersOfOtherTemplates(rows: seq<TemplateLayerRow>, t: int, known: set<int>)
    requires forall i :: 0 <= i < |rows| ==> rows[i].templateId != t
    ensures RowLayers(rows, t, known) == []
    decreases |rows|
  {
    if rows != [] {
      var p := rows[..|rows| - 1];
      assert forall i :: 0 <= i < |p| ==> p[i] == rows[i];
      RowLayersOfOtherTemplates(p, t, known);
    }
  }

  lemma {:induction false} RowLayersOfOwnRows(rows: seq<TemplateLayerRow>, t: int, known: set<int>)
    requires forall i :: 0 <= i < |rows| ==> rows[i].templateId == t && rows[i].layerId in known
    ensures RowLayers(rows, t, known) == LayerIds(rows)
    decreases |rows|
  {
    if rows != [] {
      var p := rows[..|rows| - 1];
      assert forall i :: 0 <= i < |p| ==> p[i] == rows[i];
      RowLayersOfOwnRows(p, t, known);
    }
  }

  /**
   * Saving and reloading: when the relationship table reads back as the
   * earlier rows (none for the new template) followed by the rows the save
   * wrote, and the Templates table now holds the new template, the reloaded
   * template lists exactly the known layers that were on the map, in the
   * map's order.
   */
  lemma {:induction false} SavedTemplateReloads(templateRows: seq<TitledRow>, wrappers: map<int, LayerWrapper>,
                             earlier: seq<TemplateLayerRow>, id: int, allLayers: seq<Option<int>>)
    requires exists i :: 0 <= i < |templateRows| && templateRows[i].objectId == id
    requires forall i :: 0 <= i < |earlier| ==> earlier[i].templateId != id
    requires Link(BuildGroups(templateRows), wrappers, earlier + TemplateLayerRows(id, allLayers, wrappers.Keys)).ok
    ensures var written := TemplateLayerRows(id, allLayers, wrappers.Keys);
      var l := Link(BuildGroups(templateRows), wrappers, earlier + written);
      id in l.templates && l.templates[id].layerWrappers == LayerIds(written)
  {
    var written := TemplateLayerRows(id, allLayers, wrappers.Keys);
    var groups := BuildGroups(templateRows);
    LinkAppends(groups, wrappers, earlier + written);
    RowLayersConcat(earlier, written, id, wrappers.Keys);
    RowLayersOfOtherTemplates(earlier, id, wrappers.Keys);
    RowLayersOfOwnRows(written, id, wrappers.Keys);
  }
}
