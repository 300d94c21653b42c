# OEM dashboard widget: relational model and active-set controller

This project models the core of the map dashboard widget
(`oem-dashboard/src/runtime/widget.tsx`) and proves properties of that model in Dafny.
The widget reads four remote tables: Categories, Templates, Layers and
Template-Layer relationships. From their rows it builds three id-keyed maps
(categories, templates, layer wrappers) and the two-way links between them.
It keeps two arrays of active layers and active templates, changes them as
the user adds and removes layers and templates, and writes new templates back
to the Templates and relationship tables.

Modules, leaves first:

- `Entities` (entities.dfy): table rows, the `Group` entity (Category and
  Template share its shape), `LayerWrapper`, the live `Layer` handle, and the
  well-formedness predicates of the maps. Entities refer to each other by
  OBJECTID, standing for the object references the widget stores in its
  lists. A live layer handle carries its wrapper's id and title, so the
  reference comparison `lw.layer !== layer` and the lookup by `+layer.id`
  agree.
- `Seqs` (seqs.dfy): the two list idioms the widget uses — `Array.filter`
  (`RemoveAll`) and "push unless `includes`" (`AppendAbsent`) — with
  duplicate counting and the facts the other proofs need.
- `Builder` (builder.dfy): `fetchCategories`, `fetchTemplates`,
  `fetchLayers` and `fetchTemplateLayers` as folds over the rows in query
  order, with their properties.
- `Controller` (controller.dfy): what `addActiveLayer`, `addActiveTemplate`,
  `removeActiveLayer`, `removeActiveTemplate` and `clearAll` commit to the
  pair of active arrays, the abstract effect of `createLayer`, and the
  invariants these transitions keep.
- `Persistence` (persistence.dfy): the guards and remote calls of
  `saveTemplate`, the relationship rows `saveTemplateLayers` writes, and what
  a reload then shows.
- `Loops` (loops.dfy): the widget's loops as methods over values, each proved
  to compute its specification function.
- `Dashboard` (widget.dfy): class `Widget` with the fields of the widget's
  state (`layerWrappers`, `templates`, `categories`, `loading`,
  `activeTemplates`, `activeLayers`). Its methods change these fields as the
  widget does; `setState` is an immediate assignment. Every user action keeps
  `Valid()`: the maps are well formed, the active arrays hold no duplicates,
  and every active wrapper is loaded and has a live layer.

Remote calls are replaced by their results, passed in as parameters: the
rows of each query, the count of templates with the title, the token, the
insert responses, the list of layers on the map, and whether `createLayer`
can resolve a wrapper's service. A rejected promise is `Remote.Rejected`.

The model follows the code where it differs from its doc comments or from what a reader might expect:

- `addActiveTemplate` is not fault tolerant per layer. A `createLayer` that
  throws inside its loop aborts the call, and neither active array changes.
  Wrappers materialized before the failure keep their live layers.
- `removeActiveTemplate` never removes other templates, whatever its doc
  comment says.
- `saveTemplateLayers` takes its rows from the map's layer collection, not
  from the active layers.
- The reload after a save appends to the wrappers' existing `templates`
  lists, which are never cleared. Each link loaded before the save is then
  listed twice on the wrapper side, and the new template's links once
  (`Builder.ReloadDuplicatesWrapperLinks`). A wrapper can also keep listing
  a template whose relationship row is gone, so the links are only one-way
  consistent: every template member lists the template
  (`Builder.LinkKeepsMembersListed`), but not the converse.
- A relationship row whose LAYERID is loaded but whose TEMPLATEID is not
  throws at the push. This ends `fetchTemplateLayers`, keeps the links made
  so far, and leaves `loading` set.
- In `removeActiveLayer`, the lookup `layerWrappers.get(+layer.id)` throws
  when the id is unknown and some template is active. The model commits
  nothing in that case.
- Only `addResults[0]` of an insert response is checked. An empty response
  throws, which counts as a failure.

## Model

| member | source | states |
|---|---|---|
| `Builder.BuildGroups` | docker-exb/volumes/widgets/oem-dashboard/src/runtime/widget.tsx:105-112 | The map has a key exactly for each OBJECTID among the rows. Each entry carries its own id and an empty layer list. Its title comes from the last row with that id, as repeated `Map.set` calls leave it. |
| `Builder.BuildWrappers` | docker-exb/volumes/widgets/oem-dashboard/src/runtime/widget.tsx:158-183 | The wrapper map has a key exactly for each Layers OBJECTID, holding the wrapper built from the last row with that id. Each loaded category's list gains, in row order, the ids of the rows naming it. The set of categories is unchanged. |
| `Builder.WrappersFromRows` | docker-exb/volumes/widgets/oem-dashboard/src/runtime/widget.tsx:159-180 | Each wrapper comes from a row with its id. Its title is SCOPE + " " + TITLE. It has no live layer and no templates yet. It has a category exactly when the row's CATEGORYID is loaded, and then that category lists it. A wrapper whose category is missing is still in the map. |
| `Builder.BuiltWrappersLinked` | docker-exb/volumes/widgets/oem-dashboard/src/runtime/widget.tsx:159-180 | Every wrapper fetchLayers builds is keyed by its own id and has no live layer. If it has a category, that category is loaded and lists the wrapper. |
| `Builder.LoadedWellFormed` | docker-exb/volumes/widgets/oem-dashboard/src/runtime/widget.tsx:130-180 | After categories, templates and layers are loaded, the three maps are well formed: handles match their wrappers, template members are loaded, categorised wrappers are listed by their category, and every template member lists its template. |
| `Builder.CategoryListsPartition` | docker-exb/volumes/widgets/oem-dashboard/src/runtime/widget.tsx:167-175 | With distinct Layers OBJECTIDs, no category list holds a wrapper twice, and no wrapper is in two categories' lists. |
| `Builder.LinkRow` | docker-exb/volumes/widgets/oem-dashboard/src/runtime/widget.tsx:197-204 | One relationship row with a loaded LAYERID appends the wrapper to that template's list and the template to that wrapper's list, and changes nothing else. A row with an unknown LAYERID changes nothing. A loaded LAYERID with an unknown TEMPLATEID fails and leaves the maps as they were. |
| `Builder.Link` | docker-exb/volumes/widgets/oem-dashboard/src/runtime/widget.tsx:189-210 | Processing all rows keeps the keys of both maps and changes only the member and template lists. Every new member is a loaded wrapper. |
| `Builder.LinkWellFormed` | docker-exb/volumes/widgets/oem-dashboard/src/runtime/widget.tsx:197-204 | Linking keeps the maps well formed, including every member listing its template, and changes no wrapper's live layer. |
| `Builder.LinkStopsAtFailure` | docker-exb/volumes/widgets/oem-dashboard/src/runtime/widget.tsx:197-204 | Once a row has thrown, later rows change nothing: the stage ends with the links made before the failing row. |
| `Builder.LinkOk` | docker-exb/volumes/widgets/oem-dashboard/src/runtime/widget.tsx:197-204 | The relationship stage completes exactly when every row with a loaded LAYERID names a loaded TEMPLATEID. |
| `Builder.LinkAppends` | docker-exb/volumes/widgets/oem-dashboard/src/runtime/widget.tsx:197-204 | After a completed stage, each template's list has gained the loaded LAYERIDs of its rows, and each wrapper's list the TEMPLATEIDs of its rows, both in row order. |
| `Builder.FreshLinksSymmetric` | docker-exb/volumes/widgets/oem-dashboard/src/runtime/widget.tsx:197-204 | From empty lists, a wrapper lists a template exactly when the template lists the wrapper, also when a row throws part-way. After a completed stage both sides hold the same number of copies, so duplicate rows give duplicates on both sides. |
| `Builder.LinkKeepsMembersListed` | docker-exb/volumes/widgets/oem-dashboard/src/runtime/widget.tsx:197-204 | Every row pushes onto both lists at once, so if every member lists its template before the stage, it still does after it, whether the stage completes or throws, whatever else the wrappers' lists hold. |
| `Builder.LinkKeepsSymmetric` | docker-exb/volumes/widgets/oem-dashboard/src/runtime/widget.tsx:197-204 | Symmetric links stay symmetric through the stage, whether it completes or throws. |
| `Builder.LinkMembersListed` | docker-exb/volumes/widgets/oem-dashboard/src/runtime/widget.tsx:281-284 | Linking into freshly built templates, as the load and the reload after a save do, leaves every member listing its template, whatever the wrappers' lists held before. |
| `Builder.ReloadDuplicatesWrapperLinks` | docker-exb/volumes/widgets/oem-dashboard/src/runtime/widget.tsx:282-284 | The reload links the earlier rows followed by the rows the save wrote into rebuilt templates. Each template then lists exactly the loaded layers of its rows. Each wrapper's list holds the templates of the earlier rows twice and those of the written rows once, because it was never cleared. |
| `Controller.AddLayer` | docker-exb/volumes/widgets/oem-dashboard/src/runtime/widget.tsx:355-372 | addActiveLayer appends the wrapper exactly when it is absent and otherwise leaves the active layers as they were. The active templates are untouched. |
| `Controller.AddTemplate` | docker-exb/volumes/widgets/oem-dashboard/src/runtime/widget.tsx:378-404 | The earlier active entries are kept, in order, as a prefix. Afterwards the active layers are the old ones plus the template's members, and the active templates are the old ones plus the template. |
| `Controller.RemoveLayer` | docker-exb/volumes/widgets/oem-dashboard/src/runtime/widget.tsx:411-436 | It fails exactly when the id is unknown and some template is active. Otherwise it drops exactly the active wrappers showing the layer. It drops exactly those active templates that the wrapper lists and that have no member left active. |
| `Controller.RemoveTemplate` | docker-exb/volumes/widgets/oem-dashboard/src/runtime/widget.tsx:443-466 | Only the template itself leaves the active templates. A wrapper leaves the active layers exactly when it is a member and lists none of the remaining active templates. |
| `Controller.Materialize` | docker-exb/volumes/widgets/oem-dashboard/src/runtime/widget.tsx:219-243 | A successful createLayer sets the wrapper's layer to a handle with the wrapper's id and title. Every other wrapper and field is unchanged. |
| `Controller.MaterializeMissing` | docker-exb/volumes/widgets/oem-dashboard/src/runtime/widget.tsx:385-388 | After the loop's createLayer calls, a wrapper has a live layer exactly when it had one or is among the ids. Only live layers change. |
| `Controller.MaterializedWellFormed` | docker-exb/volumes/widgets/oem-dashboard/src/runtime/widget.tsx:219-243 | Changing only live layers, each to its wrapper's own handle, keeps the maps well formed. |
| `Controller.AddMembersResolved` | docker-exb/volumes/widgets/oem-dashboard/src/runtime/widget.tsx:385-398 | When every member has or can get a live layer, the member loop completes. It materializes the missing members and appends each absent member in order. |
| `Controller.AddMembersRejected` | docker-exb/volumes/widgets/oem-dashboard/src/runtime/widget.tsx:385-388 | When some member cannot be materialized, the loop rejects at the first such member (`RejectsAt`): every member before it resolves and is already materialized, and nothing else is. |
| `Controller.AddMembersLayersOnly` | docker-exb/volumes/widgets/oem-dashboard/src/runtime/widget.tsx:385-388 | Whether it completes or rejects, the member loop changes only live layers, never takes one away, and gives each wrapper its own handle. |
| `Controller.AddMembersStopsAtFailure` | docker-exb/volumes/widgets/oem-dashboard/src/runtime/widget.tsx:385-388 | After a rejected createLayer, the remaining members change nothing. |
| `Controller.TransitionsKeepDistinct` | docker-exb/volumes/widgets/oem-dashboard/src/runtime/widget.tsx:355-477 | Every transition (add layer, add template, remove layer, remove template, clear all) keeps both active arrays free of duplicates. |
| `Controller.AddTemplateOnce` | docker-exb/volumes/widgets/oem-dashboard/src/runtime/widget.tsx:378-404 | After addActiveTemplate the template occurs exactly once among the active templates. Each of its members occurs exactly once among the active layers. |
| `Controller.AddTemplateIdempotent` | docker-exb/volumes/widgets/oem-dashboard/src/runtime/widget.tsx:378-404 | Adding a template twice gives the same active arrays as adding it once. |
| `Controller.AddLayerKeepsCovered` | docker-exb/volumes/widgets/oem-dashboard/src/runtime/widget.tsx:355-372 | Adding a layer keeps every active template that has members with at least one active member. |
| `Controller.AddTemplateKeepsCovered` | docker-exb/volumes/widgets/oem-dashboard/src/runtime/widget.tsx:378-404 | Adding a template keeps every active template that has members with at least one active member, the new one included. |
| `Controller.RemoveLayerKeepsCovered` | docker-exb/volumes/widgets/oem-dashboard/src/runtime/widget.tsx:411-436 | When every member lists its template, removeActiveLayer keeps every remaining active template with an active member. This includes the one-way links left after a reload. |
| `Controller.RemoveTemplateKeepsCovered` | docker-exb/volumes/widgets/oem-dashboard/src/runtime/widget.tsx:443-466 | When every member lists its template, removeActiveTemplate keeps every remaining active template with an active member. This includes the one-way links left after a reload. |
| `Controller.SharedLayerOutlivesOneTemplate` | docker-exb/volumes/widgets/oem-dashboard/src/runtime/widget.tsx:447-460 | A wrapper active through two templates stays active when the first is removed. It leaves when the second is removed, if no other active template lists it. |
| `Controller.RemoveOwnLayer` | docker-exb/volumes/widgets/oem-dashboard/src/runtime/widget.tsx:411-418 | Removing a wrapper's own live layer succeeds and drops exactly that wrapper from the active layers. |
| `Controller.RemoveUndoesAddLayer` | docker-exb/volumes/widgets/oem-dashboard/src/runtime/widget.tsx:355-436 | With symmetric links and covered templates, removing a layer just added restores the active arrays exactly. |
| `Controller.RemoveUndoesAddTemplate` | docker-exb/volumes/widgets/oem-dashboard/src/runtime/widget.tsx:378-466 | Removing a template just added restores the active arrays exactly. This holds when none of its members was active before and none is listed under another active template. |
| `Persistence.TemplateLayerRows` | docker-exb/volumes/widgets/oem-dashboard/src/runtime/widget.tsx:302-315 | Every row written is for the new template and names a loaded wrapper that is on the map. Every loaded wrapper on the map gets a row; basemaps and other layers do not. |
| `Persistence.TemplateLayerRowsConcat` | docker-exb/volumes/widgets/oem-dashboard/src/runtime/widget.tsx:302-315 | The rows follow the map's layer order: the rows for two stretches of the layer collection are those of the first followed by those of the second. |
| `Persistence.TemplateLayerRowsOne` | docker-exb/volumes/widgets/oem-dashboard/src/runtime/widget.tsx:302-315 | One map layer gives exactly one row when its numeric id is a loaded wrapper, and none otherwise. |
| `Persistence.Save` | docker-exb/volumes/widgets/oem-dashboard/src/runtime/widget.tsx:255-294 | An empty title makes no call. A positive title count stops before the token request and any insert. An insert is issued only after the token. Relationship rows are written only after `addResults[0].success`. The save succeeds exactly when every guard passes and both inserts report success. The calls are at most four, each in its fixed position: count query, token request, template insert, then relationship insert, the last only after the template insert succeeded. The title is reported taken exactly when the count is positive, and every other stop after a non-empty title is a failure. Once the count is zero the token is requested; once the token arrives the template insert is issued; once that insert succeeds its relationship rows are written. A successful save issued exactly the count query, the token request, the template insert and the relationship insert, in that order. |
| `Persistence.SaveCallsInOrder` | docker-exb/volumes/widgets/oem-dashboard/src/runtime/widget.tsx:255-294 | Without a token neither insert is issued, and without a successful template insert no relationship rows are written. |
| `Persistence.SavedTemplateReloads` | docker-exb/volumes/widgets/oem-dashboard/src/runtime/widget.tsx:281-284 | After saving and reloading, the new template lists exactly the loaded layers that were on the map at save time, in the map's order. |
| `Loops.GroupsFromRows` | docker-exb/volumes/widgets/oem-dashboard/src/runtime/widget.tsx:105-112 | The loop of fetchCategories and fetchTemplates builds the map BuildGroups describes. |
| `Loops.AnyIn` | docker-exb/volumes/widgets/oem-dashboard/src/runtime/widget.tsx:419-425 | The `active` scan with its break returns true exactly when some element of the first list is included in the second. |
| `Loops.WrappersFromLayerRows` | docker-exb/volumes/widgets/oem-dashboard/src/runtime/widget.tsx:158-180 | The loop of fetchLayers builds the wrappers and category lists BuildWrappers describes. |
| `Loops.LinkStep` | docker-exb/volumes/widgets/oem-dashboard/src/runtime/widget.tsx:198-203 | One pass of fetchTemplateLayers' loop body performs LinkRow. |
| `Loops.LinkRows` | docker-exb/volumes/widgets/oem-dashboard/src/runtime/widget.tsx:197-204 | The loop of fetchTemplateLayers, stopping at the first row that throws, computes Link. |
| `Loops.AddTemplateMembers` | docker-exb/volumes/widgets/oem-dashboard/src/runtime/widget.tsx:385-398 | The member loop of addActiveTemplate, stopping at the first failed createLayer, computes AddMembers. |
| `Loops.IsOrphan` | docker-exb/volumes/widgets/oem-dashboard/src/runtime/widget.tsx:418-426 | An active template is dropped exactly when the wrapper lists it and none of its members is still active. |
| `Loops.RemoveLayerFromActive` | docker-exb/volumes/widgets/oem-dashboard/src/runtime/widget.tsx:412-430 | The filter and the cascade loop of removeActiveLayer compute RemoveLayer. The loop scans the templates that were active on entry. |
| `Loops.RemoveTemplateFromActive` | docker-exb/volumes/widgets/oem-dashboard/src/runtime/widget.tsx:444-460 | The filter and the member loop of removeActiveTemplate compute RemoveTemplate. |
| `Loops.ActiveOnly` | docker-exb/volumes/widgets/oem-dashboard/src/runtime/widget.tsx:490-496 | The result holds exactly the wrapper's templates that are active, in the wrapper's order. |
| `Loops.RelationshipRows` | docker-exb/volumes/widgets/oem-dashboard/src/runtime/widget.tsx:302-315 | The loop of saveTemplateLayers builds the rows TemplateLayerRows describes. |
| `Dashboard.Widget.constructor` | docker-exb/volumes/widgets/oem-dashboard/src/runtime/widget.tsx:32-43 | Empty maps, loading set, no active layers or templates. |
| `Dashboard.Widget.FetchCategories` | docker-exb/volumes/widgets/oem-dashboard/src/runtime/widget.tsx:96-117 | The category map becomes BuildGroups of the rows. Nothing else changes. |
| `Dashboard.Widget.FetchTemplates` | docker-exb/volumes/widgets/oem-dashboard/src/runtime/widget.tsx:122-143 | The template map becomes BuildGroups of the rows. Nothing else changes. |
| `Dashboard.Widget.FetchLayers` | docker-exb/volumes/widgets/oem-dashboard/src/runtime/widget.tsx:149-184 | The wrapper map and the extended category lists become BuildWrappers of the old categories and the rows. |
| `Dashboard.Widget.FetchTemplateLayers` | docker-exb/volumes/widgets/oem-dashboard/src/runtime/widget.tsx:189-210 | The templates and wrappers become Link's result. `loading` is cleared only when the stage completes. |
| `Dashboard.Widget.CreateLayer` | docker-exb/volumes/widgets/oem-dashboard/src/runtime/widget.tsx:217-249 | It succeeds exactly when the service resolves. The wrapper then gets its own handle, and on failure nothing changes. The widget stays valid. |
| `Dashboard.Widget.AddActiveLayer` | docker-exb/volumes/widgets/oem-dashboard/src/runtime/widget.tsx:355-372 | A wrapper without a live layer is materialized first, and a failed createLayer commits nothing. Otherwise the active arrays become AddLayer's result. The widget stays valid, and covered templates stay covered. |
| `Dashboard.Widget.AddActiveTemplate` | docker-exb/volumes/widgets/oem-dashboard/src/runtime/widget.tsx:378-404 | It commits AddTemplate's arrays exactly when every member can be materialized, and otherwise commits nothing. Otherwise the wrappers are exactly those materialized before the first member that cannot be, and those members stay materialized. The widget stays valid, and covered templates stay covered. |
| `Dashboard.MemberPassKeepsValid` | docker-exb/volumes/widgets/oem-dashboard/src/runtime/widget.tsx:378-404 | After addActiveTemplate's member loop the maps stay well formed and active wrappers keep their live layers. The loop completes exactly when every member resolves. It then yields AddTemplate's active arrays: no duplicates, all live, and still covered. Otherwise it rejects at the first member that cannot be materialized. |
| `Dashboard.Widget.RemoveActiveLayer` | docker-exb/volumes/widgets/oem-dashboard/src/runtime/widget.tsx:411-436 | It commits RemoveLayer's arrays, or nothing when the lookup throws. The maps are unchanged, the widget stays valid, and if every active template with members had an active member, it still does. |
| `Dashboard.Widget.RemoveActiveTemplate` | docker-exb/volumes/widgets/oem-dashboard/src/runtime/widget.tsx:443-466 | It commits RemoveTemplate's arrays. The maps are unchanged, the widget stays valid, and if every active template with members had an active member, it still does. |
| `Dashboard.Widget.ClearAll` | docker-exb/volumes/widgets/oem-dashboard/src/runtime/widget.tsx:471-477 | Both active arrays become empty. The maps are unchanged. |
| `Dashboard.Widget.GetLayerTemplates` | docker-exb/volumes/widgets/oem-dashboard/src/runtime/widget.tsx:485-500 | An unknown id gives no templates. Otherwise it gives the wrapper's templates, or with `active` exactly the active ones among them, in the wrapper's order. |
| `Dashboard.Widget.GetLayerCategory` | docker-exb/volumes/widgets/oem-dashboard/src/runtime/widget.tsx:507-512 | An unknown id gives none; otherwise the wrapper's category. In a valid state that category is loaded and lists the wrapper. |
| `Dashboard.Widget.SaveTemplate` | docker-exb/volumes/widgets/oem-dashboard/src/runtime/widget.tsx:255-330 | The calls and outcome are Save's. After both inserts succeed, templates and then links are reloaded, stopping at a rejected query. The active arrays never change. |
| `Dashboard.Widget.ComponentDidMount` | docker-exb/volumes/widgets/oem-dashboard/src/runtime/widget.tsx:50-91 | The stages run in order. The first failure stops the later ones and names the stage. The state is what the earlier stages built. `loading` is cleared exactly when every stage completes. |

## Left out

- `oem-database-config/src/runtime/DeleteCategory.tsx` only toggles a modal and forwards an id to a callback; it holds no domain logic.
- `render` and `activeViewChangeHandler` are React and map-view glue, including setting the basemap.
- `getToken` (OAuth sign-in through the identity manager) is an input: its token or a rejection.
- `getLayerInfo` is a network query of the Layers table and is not modelled.
- The internals of `createLayer` (`Layer.fromArcGISServerUrl`, the layer-type check, parsing the renderer JSON, setting `definitionExpression`) are foreign library behaviour. The model keeps only the effect: success sets the wrapper's handle, failure rejects.
- The map surface is not modelled: `map.add`, `map.remove`, `map.removeAll`, the `visible` flag, and the per-layer `alert` when adding fails. `saveTemplateLayers` takes the map's layer list as an input, each layer's `+layer.id` given as a number or as absent when it is not numeric.
- `alert`, `console` and the SQL `where` text built from the title are not modelled; the count query is an input.
- `fetchLayers` starts `createLayer` for each wrapper without awaiting it. The model does not perform these background materializations during the load; a wrapper is loaded without a live layer and can be materialized later by `CreateLayer`, `AddActiveLayer` or `AddActiveTemplate`. Interleaving of these tasks with `setState` and with user actions is not modelled: there is one sequential writer.
- The iteration order of the entity maps is not modelled. The source's `Map`s keep insertion order, which is the query order (Categories and Templates by TITLE, Layers by SCOPE then TITLE); the model's maps keep the same keys and entries but no order. Only presentation in `render` reads that order.
- Object identity is modelled by id. After a reload the source holds new Template objects while wrappers' `templates` lists and `activeTemplates` still hold the old ones. The model cannot tell an old Template from a reloaded one with the same id.
- The relationship row's LAYERID is written as the layer's number; the source writes the string `layer.id`, which the table stores as its number.
- Dashboard.Widget.ComponentDidMount: requires the freshly constructed state, because React calls it once right after the constructor.
- Dashboard.Widget.AddActiveLayer: requires the wrapper id to be loaded, since the source receives the wrapper object itself from the maps.
- Dashboard.Widget.GetLayerTemplates: when `active` is off, the source returns the wrapper's own `templates` array, which a caller could then change in place. The model returns a copy of its value, so that aliasing is not captured.
