/**
 * The dashboard's relational model: the rows its four remote tables return
 * and the three kinds of entity it builds from them. Entities refer to each
 * other by their OBJECTID (the key of the id-keyed maps), which stands for
 * the object references the widget keeps in its lists.
 */
module Entities {

  datatype Option<T> = None | Some(value: T)

  /** The outcome of an awaited remote call: its value, or a rejected promise. */
  datatype Remote<T> = Ok(value: T) | Rejected

  /** A row of the Categories table or of the Templates table (OBJECTID, TITLE). */
  datatype TitledRow = TitledRow(objectId: int, title: string)

  /** A row of the Layers table, with the fields the widget asks for. */
  datatype LayerRow = LayerRow(
    objectId: int,
    title: string,
    url: string,
    scope: string,
    categoryId: int,
    renderer: Option<string>,
    filter: Option<string>)

  /**
   * A row of the Template-Layer relationships table. Rows are read ordered by
   * their OBJECTID, so a sequence of rows carries that order by position.
   */
  datatype TemplateLayerRow = TemplateLayerRow(templateId: int, layerId: int)

  /**
   * A Category or a Template: both are an id, a title and an ordered list of
   * the ids of their layer wrappers.
   */
  datatype Group = Group(id: int, title: string, layerWrappers: seq<int>)
  type Category = Group
  type Template = Group

  /** A live map layer; the materializer gives it its wrapper's id and title. */
  datatype Layer = Layer(id: int, title: string)

  /**
   * A layer description from the Layers table together with its live layer
   * (once materialized), its category (absent when the row's CATEGORYID is
   * not a known category) and the templates that list it.
   */
  datatype LayerWrapper = LayerWrapper(
    id: int,
    title: string,
    url: string,
    filter: Option<string>,
    renderer: Option<string>,
    layer: Option<Layer>,
    category: Option<int>,
    templates: seq<int>)

  /** The handle the materializer produces for a wrapper. */
  function HandleOf(w: LayerWrapper): Layer {
    Layer(w.id, w.title)
  }

  /** The member list of template `t`; empty for an id that is not loaded. */
  function MembersOf(templates: map<int, Template>, t: int): seq<int> {
    if t in templates then templates[t].layerWrappers else []
  }

  /** The templates of wrapper `w`; empty for an id that is not loaded. */
  function TemplatesOf(wrappers: map<int, LayerWrapper>, w: int): seq<int> {
    if w in wrappers then wrappers[w].templates else []
  }

  /** The live layer of wrapper `w`, if it has one. */
  function LayerOf(wrappers: map<int, LayerWrapper>, w: int): Option<Layer> {
    if w in wrappers then wrappers[w].layer else None
  }

  /** Some element of `xs` is also in `ys`. */
  predicate Intersects(xs: seq<int>, ys: seq<int>) {
    exists x :: x in xs && x in ys
  }

  /** Every wrapper is stored under its own id and carries its own handle, if any. */
  ghost predicate HandlesMatch(wrappers: map<int, LayerWrapper>) {
    forall id :: id in wrappers ==>
      wrappers[id].id == id &&
      (wrappers[id].layer.Some? ==> wrappers[id].layer.value == HandleOf(wrappers[id]))
  }

  /** Every template member is a loaded wrapper. */
  ghost predicate MembersKnown(templates: map<int, Template>, wrappers: map<int, LayerWrapper>) {
    forall t, w :: w in MembersOf(templates, t) ==> w in wrappers
  }

  /** Every wrapper that has a category is listed by that loaded category. */
  ghost predicate CategoriesKnown(categories: map<int, Category>, wrappers: map<int, LayerWrapper>) {
    forall w :: w in wrappers && wrappers[w].category.Some? ==>
      wrappers[w].category.value in categories && w in categories[wrappers[w].category.value].layerWrappers
  }

  /**
   * Every member of a template lists that template. The converse can fail:
   * a reload rebuilds the templates but never clears the wrappers' lists.
   */
  ghost predicate MembersListed(templates: map<int, Template>, wrappers: map<int, LayerWrapper>) {
    forall t, w :: w in MembersOf(templates, t) ==> t in TemplatesOf(wrappers, w)
  }

  /** The consistency of the three entity maps that loading and reloading keep. */
  ghost predicate WellFormed(categories: map<int, Category>, templates: map<int, Template>,
                             wrappers: map<int, LayerWrapper>) {
    HandlesMatch(wrappers) && MembersKnown(templates, wrappers) && CategoriesKnown(categories, wrappers) &&
    MembersListed(templates, wrappers)
  }

  /** A wrapper lists a template exactly when that template lists the wrapper. */
  ghost predicate Symmetric(templates: map<int, Template>, wrappers: map<int, LayerWrapper>) {
    forall t, w :: w in MembersOf(templates, t) <==> t in TemplatesOf(wrappers, w)
  }
}
