/**
 * The dashboard widget itself: its state (the category, template and
 * wrapper maps, the loading flag and the two active arrays) and the methods
 * that change it, each proved to leave the state its specification
 * function in Builder, Controller or Persistence describes. Remote calls
 * are replaced by their results, passed in as parameters.
 */
module Dashboard {
  import opened Entities
  import opened Seqs
  import opened Builder
  import opened Controller
  import opened Persistence
  import opened Loops

  /** The stages of componentDidMount, in the order they run. */
  datatype Stage = Connection | CategoriesStage | TemplatesStage | LayersStage | TemplateLayersStage

  /** How componentDidMount ends: every stage ran, or the first stage that failed. */
  datatype LoadOutcome = Complete | FailedAt(stage: Stage)

  /**
   * What addActiveTemplate's member loop leaves, stated for the widget's
   * invariant: the maps stay well formed and every active wrapper keeps its
   * live layer; the loop completes exactly when every member resolves, and
   * then the new active arrays are AddTemplate's, free of duplicates, all
   * live and still covered; otherwise it rejects at the first member that
   * cannot be materialized.
   */
  lemma {:induction false} MemberPassKeepsValid(categories: map<int, Category>, templates: map<int, Template>,
                                                wrappers: map<int, LayerWrapper>, a: ActiveSets, t: int,
                                                resolves: set<int>)
    requires WellFormed(categories, templates, wrappers) && Distinct(a)
    requires forall w :: w in a.layers ==> w in wrappers && wrappers[w].layer.Some?
    ensures var members := MembersOf(templates, t);
      var pass := AddMembers(wrappers, a.layers, members, resolves);
      var r := AddTemplate(templates, a, t);
      WellFormed(categories, templates, pass.wrappers) &&
      (forall w :: w in a.layers ==> w in pass.wrappers && pass.wrappers[w].layer.Some?) &&
      (pass.ok <==> Resolvable(wrappers, members, resolves)) &&
      (pass.ok ==> pass.wrappers == MaterializeMissing(wrappers, members) && pass.layers == r.layers &&
                   Distinct(r) && forall w :: w in r.layers ==> w in pass.wrappers && pass.wrappers[w].layer.Some?) &&
      (!pass.ok ==> exists k :: RejectsAt(wrappers, members, resolves, pass.wrappers, k)) &&
      (Covered(templates, a) ==> Covered(templates, r))
  {
    var members := MembersOf(templates, t);
    var pass := AddMembers(wrappers, a.layers, members, resolves);
    AddMembersLayersOnly(wrappers, a.layers, members, resolves);
    MaterializedWellFormed(categories, templates, wrappers, pass.wrappers);
    AppendAbsentNoDup(a.layers, members);
    AppendAbsentNoDup(a.templates, [t]);
    if Covered(templates, a) {
      AddTemplateKeepsCovered(templates, a, t);
    }
    if Resolvable(wrappers, members, resolves) {
      AddMembersResolved(wrappers, a.layers, members, resolves);
    } else {
      AddMembersRejected(wrappers, a.layers, members, resolves);
    }
  }

  class Widget {
    /** Wrappers by the OBJECTID of their Layers row. */
    var layerWrappers: map<int, LayerWrapper>
    /** Templates by OBJECTID. */
    var templates: map<int, Template>
    /** Categories by OBJECTID. */
    var categories: map<int, Category>
    /** True until fetchTemplateLayers has finished. */
    var loading: bool
    var activeTemplates: seq<int>
    var activeLayers: seq<int>

    /**
     * The consistency every user action keeps: wrappers carry their own id
     * and handle, template members and categorised wrappers are loaded and
     * listed where they should be, the active arrays hold no id twice, and
     * every active wrapper is loaded and has a live layer.
     */
    ghost predicate Valid()
      reads this
    {
      WellFormed(categories, templates, layerWrappers) &&
      NoDup(activeLayers) && NoDup(activeTemplates) &&
      (forall w :: w in activeLayers ==> w in layerWrappers && layerWrappers[w].layer.Some?)
    }

    /** The pair of active arrays the Controller transitions act on. */
    function Active(): ActiveSets
      reads this
    {
      ActiveSets(activeLayers, activeTemplates)
    }

    /** The state the constructor sets up: nothing loaded, loading, nothing active. */
    ghost predicate Initial()
      reads this
    {
      layerWrappers == map[] && templates == map[] && categories == map[] && loading &&
      activeTemplates == [] && activeLayers == []
    }

    constructor()
      ensures Initial() && Valid()
    {
      layerWrappers := map[];
      templates := map[];
      categories := map[];
      loading := true;
      activeTemplates := [];
      activeLayers := [];
    }

    /** fetchCategories, given the rows the Categories query returned. */
    method FetchCategories(rows: seq<TitledRow>)
      modifies this
      ensures categories == BuildGroups(rows)
      ensures templates == old(templates) && layerWrappers == old(layerWrappers) && loading == old(loading)
      ensures activeLayers == old(activeLayers) && activeTemplates == old(activeTemplates)
    {
      var newCategories := GroupsFromRows(rows);
      categories := newCategories;
    }

    /** fetchTemplates, given the rows the Templates query returned. */
    method FetchTemplates(rows: seq<TitledRow>)
      modifies this
      ensures templates == BuildGroups(rows)
      ensures categories == old(categories) && layerWrappers == old(layerWrappers) && loading == old(loading)
      ensures activeLayers == old(activeLayers) && activeTemplates == old(activeTemplates)
    {
      var newTemplates := GroupsFromRows(rows);
      templates := newTemplates;
    }

    /**
     * fetchLayers, given the rows the Layers query returned: the category
     * lists are extended and the new wrapper map replaces the old one.
     */
    method FetchLayers(rows: seq<LayerRow>)
      modifies this
      ensures var b := BuildWrappers(old(categories), rows);
        categories == b.categories && layerWrappers == b.wrappers
      ensures templates == old(templates) && loading == old(loading)
      ensures activeLayers == old(activeLayers) && activeTemplates == old(activeTemplates)
    {
      var b := WrappersFromLayerRows(categories, rows);
      categories := b.categories;
      layerWrappers := b.wrappers;
    }

    /**
     * fetchTemplateLayers, given the rows the relationship query returned.
     * When a row throws, the links pushed so far stay and `loading` is not
     * cleared.
     */
    method FetchTemplateLayers(rows: seq<TemplateLayerRow>) returns (ok: bool)
      modifies this
      ensures var l := Link(old(templates), old(layerWrappers), rows);
        templates == l.templates && layerWrappers == l.wrappers && ok == l.ok
      ensures loading == (old(loading) && !ok)
      ensures categories == old(categories)
      ensures activeLayers == old(activeLayers) && activeTemplates == old(activeTemplates)
    {
      var l := LinkRows(templates, layerWrappers, rows);
      templates := l.templates;
      layerWrappers := l.wrappers;
      ok := l.ok;
      if ok {
        loading := false;
      }
    }

    /**
     * createLayer for the wrapper `id`; `resolved` is whether loading the
     * service succeeds. On success the wrapper's layer is a handle with its
     * id and title; on failure nothing changes and the call rejects.
     */
    method CreateLayer(id: int, resolved: bool) returns (ok: bool)
      requires Valid() && id in layerWrappers
      modifies this
      ensures Valid()
      ensures ok == resolved
      ensures layerWrappers == if resolved then Materialize(old(layerWrappers), id) else old(layerWrappers)
      ensures templates == old(templates) && categories == old(categories) && loading == old(loading)
      ensures activeLayers == old(activeLayers) && activeTemplates == old(activeTemplates)
    {
      if !resolved {
        return false;
      }
      var materialized := Materialize(layerWrappers, id);
      MaterializedWellFormed(categories, templates, layerWrappers, materialized);
      layerWrappers := materialized;
      ok := true;
    }

    /**
     * addActiveLayer for the wrapper `id`: a wrapper without a live layer is
     * materialized first (`resolved` says whether that succeeds; when it
     * fails the call rejects and the active arrays are unchanged); then the
     * wrapper is appended to the active layers unless present.
     */
    method AddActiveLayer(id: int, resolved: bool) returns (ok: bool)
      requires Valid() && id in layerWrappers
      modifies this
      ensures Valid()
      ensures ok <==> old(layerWrappers)[id].layer.Some? || resolved
      ensures Active() == if ok then AddLayer(old(Active()), id) else old(Active())
      ensures Covered(old(templates), old(Active())) ==> Covered(templates, Active())
      ensures layerWrappers ==
        if old(layerWrappers)[id].layer.None? && resolved then Materialize(old(layerWrappers), id) else old(layerWrappers)
      ensures templates == old(templates) && categories == old(categories) && loading == old(loading)
    {
      if layerWrappers[id].layer.None? {
        var created := CreateLayer(id, resolved);
        if !created {
          return false;
        }
      }
      if Covered(templates, Active()) {
        AddLayerKeepsCovered(templates, Active(), id);
      }
      if id !in activeLayers {
        NoDupSnoc(activeLayers, id);
        activeLayers := activeLayers + [id];
      }
      ok := true;
    }

    /**
     * addActiveTemplate for template `t`; `resolves` is the set of wrappers
     * whose materialization would succeed. The template is appended unless
     * present, then its members are added by AddMembers; the active arrays
     * are committed only when every member could be materialized.
     */
    method AddActiveTemplate(t: int, resolves: set<int>) returns (ok: bool)
      requires Valid()
      modifies this
      ensures Valid()
      ensures ok <==> Resolvable(old(layerWrappers), MembersOf(old(templates), t), resolves)
      ensures Active() == if ok then AddTemplate(old(templates), old(Active()), t) else old(Active())
      ensures Covered(old(templates), old(Active())) ==> Covered(templates, Active())
      ensures var members := MembersOf(old(templates), t);
        ok ==> layerWrappers == MaterializeMissing(old(layerWrappers), members)
      ensures var members := MembersOf(old(templates), t);
        !ok ==> exists k :: RejectsAt(old(layerWrappers), members, resolves, layerWrappers, k)
      ensures templates == old(templates) && categories == old(categories) && loading == old(loading)
    {
      var newActiveTemplates := activeTemplates;
      if t !in newActiveTemplates {
        newActiveTemplates := newActiveTemplates + [t];
      }
      var members := MembersOf(templates, t);
      var pass := AddTemplateMembers(layerWrappers, activeLayers, members, resolves);
      MemberPassKeepsValid(categories, templates, layerWrappers, Active(), t, resolves);
      layerWrappers := pass.wrappers;
      ok := pass.ok;
      if ok {
        AppendAbsentOne(activeTemplates, t);
        activeTemplates := newActiveTemplates;
        activeLayers := pass.layers;
      }
    }

    /**
     * removeActiveLayer for the live layer `layer`: commits
     * RemoveLayerFromActive's result, or nothing when the lookup throws.
     */
    method RemoveActiveLayer(layer: Layer) returns (ok: bool)
      requires Valid()
      modifies this
      ensures Valid()
      ensures var r := RemoveLayer(old(layerWrappers), old(templates), old(Active()), layer);
        ok == r.Some? && Active() == if ok then r.value else old(Active())
      ensures Covered(old(templates), old(Active())) ==> Covered(templates, Active())
      ensures layerWrappers == old(layerWrappers) && templates == old(templates)
      ensures categories == old(categories) && loading == old(loading)
    {
      var r := RemoveLayerFromActive(layerWrappers, templates, Active(), layer);
      if r.None? {
        return false;
      }
      if Covered(templates, Active()) {
        RemoveLayerKeepsCovered(layerWrappers, templates, Active(), layer);
      }
      var remaining := RemoveAll(activeLayers, Showing(layerWrappers, activeLayers, layer));
      RemoveAllNoDup(activeLayers, Showing(layerWrappers, activeLayers, layer));
      RemoveAllNoDup(activeTemplates, Orphaned(layerWrappers, templates, activeTemplates, layer.id, remaining));
      activeLayers := r.value.layers;
      activeTemplates := r.value.templates;
      ok := true;
    }

    /** removeActiveTemplate for template `t`: commits RemoveTemplateFromActive's result. */
    method RemoveActiveTemplate(t: int)
      requires Valid()
      modifies this
      ensures Valid()
      ensures Active() == RemoveTemplate(old(layerWrappers), old(templates), old(Active()), t)
      ensures Covered(old(templates), old(Active())) ==> Covered(templates, Active())
      ensures layerWrappers == old(layerWrappers) && templates == old(templates)
      ensures categories == old(categories) && loading == old(loading)
    {
      var r := RemoveTemplateFromActive(layerWrappers, templates, Active(), t);
      RemoveAllNoDup(activeTemplates, {t});
      RemoveAllNoDup(activeLayers, Unreferenced(layerWrappers, MembersOf(templates, t), RemoveAll(activeTemplates, {t})));
      if Covered(templates, Active()) {
        RemoveTemplateKeepsCovered(layerWrappers, templates, Active(), t);
      }
      activeLayers := r.layers;
      activeTemplates := r.templates;
    }

    /** clearAll: both active arrays are emptied. */
    method ClearAll()
      requires Valid()
      modifies this
      ensures Valid()
      ensures Active() == Cleared
      ensures layerWrappers == old(layerWrappers) && templates == old(templates)
      ensures categories == old(categories) && loading == old(loading)
    {
      activeTemplates := [];
      activeLayers := [];
    }

    /**
     * getLayerTemplates: the templates the wrapper `+layer.id` lists, or,
     * with `active`, those of them that are active, in the wrapper's order;
     * an unloaded id gives none.
     */
    method GetLayerTemplates(layer: Layer, active: bool) returns (r: seq<int>)
      ensures layer.id !in layerWrappers ==> r == []
      ensures !active ==> r == TemplatesOf(layerWrappers, layer.id)
      ensures active ==> forall x :: x in r <==> x in TemplatesOf(layerWrappers, layer.id) && x in activeTemplates
      ensures active ==> r == RemoveAll(TemplatesOf(layerWrappers, layer.id),
                                        set x | x in TemplatesOf(layerWrappers, layer.id) && x !in activeTemplates)
      ensures |r| <= |TemplatesOf(layerWrappers, layer.id)|
    {
      if layer.id !in layerWrappers {
        return [];
      }
      if active {
        r := ActiveOnly(layerWrappers[layer.id].templates, activeTemplates);
      } else {
        r := layerWrappers[layer.id].templates;
      }
    }

    /**
     * getLayerCategory: the category of the wrapper `+layer.id`, none for an
     * unloaded id; in a valid state that category is loaded and lists the
     * wrapper.
     */
    function GetLayerCategory(layer: Layer): (r: Option<int>)
      reads this
      ensures layer.id !in layerWrappers ==> r.None?
      ensures layer.id in layerWrappers ==> r == layerWrappers[layer.id].category
      ensures r.Some? && Valid() ==> r.value in categories && layer.id in categories[r.value].layerWrappers
    {
      if layer.id !in layerWrappers then None else layerWrappers[layer.id].category
    }

    /**
     * saveTemplate: the remote results are parameters (the title count, the
     * token, the template insert, the map's layers, the relationship insert,
     * and the two queries of the reload). The calls issued are Save's; after
     * both inserts succeed, the templates and their links are reloaded,
     * stopping at the first reload query that is rejected.
     */
    method SaveTemplate(title: string, count: Remote<int>, token: Remote<string>, insert: Remote<seq<AddResult>>,
                        allLayers: seq<Option<int>>, layersInsert: Remote<seq<AddResult>>,
                        templateRows: Remote<seq<TitledRow>>, relationshipRows: Remote<seq<TemplateLayerRow>>)
      returns (step: SaveStep, reloaded: bool)
      requires Valid()
      modifies this
      ensures Valid()
      ensures step == Save(title, count, token, insert, allLayers, old(layerWrappers).Keys, layersInsert)
      ensures reloaded <==> (step.outcome.Inserted? && templateRows.Ok? && relationshipRows.Ok? &&
        Link(BuildGroups(templateRows.value), old(layerWrappers), relationshipRows.value).ok)
      ensures !step.outcome.Inserted? || templateRows.Rejected? ==>
        templates == old(templates) && layerWrappers == old(layerWrappers) && loading == old(loading)
      ensures step.outcome.Inserted? && templateRows.Ok? && relationshipRows.Rejected? ==>
        templates == BuildGroups(templateRows.value) && layerWrappers == old(layerWrappers) && loading == old(loading)
      ensures step.outcome.Inserted? && templateRows.Ok? && relationshipRows.Ok? ==>
        var l := Link(BuildGroups(templateRows.value), old(layerWrappers), relationshipRows.value);
        templates == l.templates && layerWrappers == l.wrappers && loading == (old(loading) && !l.ok)
      ensures categories == old(categories)
      ensures activeLayers == old(activeLayers) && activeTemplates == old(activeTemplates)
    {
      if title == "" {
        return SaveStep(NeedsTitle, []), false;
      }
      var calls := [CountTitle(title)];
      if count.Rejected? {
        return SaveStep(SaveFailed, calls), false;
      }
      if count.value > 0 {
        return SaveStep(TitleTaken, calls), false;
      }
      calls := calls + [RequestToken];
      if token.Rejected? {
        return SaveStep(SaveFailed, calls), false;
      }
      calls := calls + [InsertTemplate(title)];
      if !FirstSucceeded(insert) {
        return SaveStep(SaveFailed, calls), false;
      }
      var templateId := insert.value[0].objectId;
      var rows := RelationshipRows(templateId, allLayers, layerWrappers);
      calls := calls + [InsertTemplateLayers(rows)];
      if !FirstSucceeded(layersInsert) {
        return SaveStep(SaveFailed, calls), false;
      }
      step, reloaded := SaveStep(Inserted(templateId), calls), false;
      if templateRows.Rejected? {
        return;
      }
      FreshTemplatesWellFormed(categories, templates, layerWrappers, templateRows.value);
      FetchTemplates(templateRows.value);
      if relationshipRows.Rejected? {
        return;
      }
      LinkWellFormed(categories, templates, layerWrappers, relationshipRows.value);
      reloaded := FetchTemplateLayers(relationshipRows.value);
    }

    /**
     * componentDidMount: connect, then fetch the categories, the templates,
     * the layers and the relationships, each stage only after the previous
     * one succeeded; the first failure ends the load with the state the
     * earlier stages left.
     */
    method ComponentDidMount(connected: bool, categoryRows: Remote<seq<TitledRow>>,
                             templateRows: Remote<seq<TitledRow>>, layerRows: Remote<seq<LayerRow>>,
                             relationshipRows: Remote<seq<TemplateLayerRow>>)
      returns (outcome: LoadOutcome)
      requires Initial()
      modifies this
      ensures Valid()
      ensures activeLayers == [] && activeTemplates == []
      ensures outcome == FailedAt(Connection) <==> !connected
      ensures outcome == FailedAt(CategoriesStage) <==> connected && categoryRows.Rejected?
      ensures outcome == FailedAt(TemplatesStage) <==> connected && categoryRows.Ok? && templateRows.Rejected?
      ensures outcome == FailedAt(LayersStage) <==>
        connected && categoryRows.Ok? && templateRows.Ok? && layerRows.Rejected?
      ensures outcome == Complete <==>
        connected && categoryRows.Ok? && templateRows.Ok? && layerRows.Ok? && relationshipRows.Ok? &&
        RowsResolve(BuildGroups(templateRows.value), BuildWrappers(BuildGroups(categoryRows.value), layerRows.value).wrappers,
                    relationshipRows.value)
      ensures loading <==> outcome != Complete
      ensures !connected || categoryRows.Rejected? ==> Initial()
      ensures connected && categoryRows.Ok? && templateRows.Rejected? ==>
        categories == BuildGroups(categoryRows.value) && templates == map[] && layerWrappers == map[]
      ensures connected && categoryRows.Ok? && templateRows.Ok? && layerRows.Rejected? ==>
        categories == BuildGroups(categoryRows.value) && templates == BuildGroups(templateRows.value) &&
        layerWrappers == map[]
      ensures connected && categoryRows.Ok? && templateRows.Ok? && layerRows.Ok? ==>
        var built := BuildWrappers(BuildGroups(categoryRows.value), layerRows.value);
        categories == built.categories &&
        (relationshipRows.Rejected? ==>
           templates == BuildGroups(templateRows.value) && layerWrappers == built.wrappers) &&
        (relationshipRows.Ok? ==>
           var links := Link(BuildGroups(templateRows.value), built.wrappers, relationshipRows.value);
           templates == links.templates && layerWrappers == links.wrappers)
    {
      if !connected {
        return FailedAt(Connection);
      }
      if categoryRows.Rejected? {
        return FailedAt(CategoriesStage);
      }
      FetchCategories(categoryRows.value);
      if templateRows.Rejected? {
        return FailedAt(TemplatesStage);
      }
      FetchTemplates(templateRows.value);
      if layerRows.Rejected? {
        return FailedAt(LayersStage);
      }
      FetchLayers(layerRows.value);
      LoadedWellFormed(categoryRows.value, templateRows.value, layerRows.value);
      if relationshipRows.Rejected? {
        return FailedAt(TemplateLayersStage);
      }
      LinkWellFormed(categories, templates, layerWrappers, relationshipRows.value);
      var ok := FetchTemplateLayers(relationshipRows.value);
      LinkOk(BuildGroups(templateRows.value), BuildWrappers(BuildGroups(categoryRows.value), layerRows.value).wrappers,
             relationshipRows.value);
      outcome := if ok then Complete else FailedAt(TemplateLayersStage);
    }
  }
}
