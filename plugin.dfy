/**
 * The plugin's main class: the lazily created single instance, the REST
 * endpoint that lists the posts of a content type, the cron batch update that
 * writes a marker into every custom field of the first page of posts of
 * each stored type, and the activation hooks that schedule and unschedule
 * that cron event. The same REST, batch and activation code is in the
 * older single-file plugin as well.
 */
module Plugin {
  import opened Php
  import opened Wp

  // ---------------------------------------------------------------------
  // instance()
  // ---------------------------------------------------------------------

  /** The plugin object; what its constructor hooks up is not modelled. */
  class LightWork {
    constructor ()
    {
    }
  }

  /** The class's static state: `self::$instance`. */
  class Runtime {
    var instance: LightWork?

    constructor ()
      ensures instance == null
    {
      instance := null;
    }

    /** `instance()`: constructs on the first call, then always hands back that object. */
    method Instance() returns (p: LightWork)
      modifies this
      ensures old(instance) == null ==> fresh(p)
      ensures old(instance) != null ==> p == old(instance)
      ensures instance == p
    {
      if instance == null {
        instance := new LightWork();
      }
      p := instance;
    }

    /** Two calls in a row return the same object. */
    method InstanceTwice() returns (p: LightWork, q: LightWork)
      modifies this
      ensures p == q && instance == p
    {
      p := Instance();
      q := Instance();
    }
  }

  // ---------------------------------------------------------------------
  // rest_get_items
  // ---------------------------------------------------------------------

  /** The request's parameters: query-string values, absent when not given. */
  type Request = map<string, string>

  function Param(req: Request, name: string): Option<string> {
    if name in req then Some(req[name]) else None
  }

  /** The `orderby` validator: `in_array( $param, [ 'date', 'title' ], true )`. */
  predicate ValidOrderBy(param: string) {
    param == "date" || param == "title"
  }

  /** The arguments `rest_get_items` hands to `WP_Query`. */
  datatype QueryArgs = QueryArgs(postType: Option<string>, perPage: int, paged: int, orderBy: string)

  /**
   * The query arguments: 10 per page; the page number when it is truthy, read
   * with `absint`, else 1; the order field when truthy, else `date`.
   */
  function RestArgs(req: Request): (r: QueryArgs)
    ensures r.postType == Param(req, "type") && r.perPage == 10 && r.paged >= 0
    ensures (!("page" in req) || !Truthy(req["page"])) ==> r.paged == 1
    ensures "page" in req && Truthy(req["page"]) ==> r.paged == Absint(req["page"])
    ensures r.orderBy == if "orderby" in req && Truthy(req["orderby"]) then req["orderby"] else "date"
  {
    var page := Param(req, "page");
    var orderBy := Param(req, "orderby");
    QueryArgs(Param(req, "type"), 10,
              if page.Some? && Truthy(page.value) then Absint(page.value) else 1,
              Elvis(orderBy.GetOr(""), "date"))
  }

  /**
   * A request that passes the `orderby` validator (which only runs on a
   * parameter that is present) queries by date or by title, and nothing else.
   */
  lemma OrderByAllowed(req: Request)
    requires "orderby" in req ==> ValidOrderBy(req["orderby"])
    ensures RestArgs(req).orderBy == "date" || RestArgs(req).orderBy == "title"
    ensures "orderby" in req ==> RestArgs(req).orderBy == req["orderby"]
  {
  }

  /** A page given as a decimal number is used as is; an omitted page is the first. */
  lemma PageNumberRead(req: Request, n: nat)
    requires "page" in req && req["page"] == NatToString(n) && n != 0
    ensures RestArgs(req).paged == n
    ensures RestArgs(req - {"page"}).paged == 1
  {
    AbsintOfNatToString(n);
    assert NatToString(n) != [];
    if NatToString(n) == "0" {
      assert DigitsValue(NatToString(n)) == 0;
      DigitsValueOfNatToString(n);
    }
  }

  /**
   * The `page` validator is `absint`, whose result is never the `false` that
   * rejects a parameter; so a non-numeric page passes and becomes page 0.
   */
  lemma NonNumericPageIsZero()
    ensures RestArgs(map["page" := "abc"]).paged == 0
  {
    assert Truthy("abc");
    assert !IsDigit('a') && !IsSpace('a');
  }

  /** One element of the response. `acf` is absent when there are no field values. */
  datatype Item = Item(id: nat, title: string, link: string, acf: Option<map<string, string>>)

  /**
   * What the site answers for one post: `get_the_title`, `get_permalink`, and
   * `get_fields` (whose empty result, or `false`, is the empty map); whether
   * `get_fields` exists at all is `acfActive`.
   */
  datatype Lookup = Lookup(title: nat -> string, link: nat -> string, fields: nat -> map<string, string>, acfActive: bool)

  /** The item for one post: the `acf` key only when `get_fields` exists and returns something truthy. */
  function ItemOf(look: Lookup, id: nat): (r: Item)
    ensures r.id == id && r.title == look.title(id) && r.link == look.link(id)
    ensures r.acf.Some? <==> look.acfActive && look.fields(id) != map[]
    ensures r.acf.Some? ==> r.acf.value == look.fields(id)
  {
    if look.acfActive && look.fields(id) != map[] then Item(id, look.title(id), look.link(id), Some(look.fields(id)))
    else Item(id, look.title(id), look.link(id), None)
  }

  /**
   * The loop of `rest_get_items` over the posts the query returned (`posts`,
   * in query order): one item per post, in the same order.
   */
  method RestGetItems(look: Lookup, posts: seq<nat>) returns (data: seq<Item>)
    ensures |data| == |posts|
    ensures forall i :: 0 <= i < |posts| ==> data[i] == ItemOf(look, posts[i])
  {
    data := [];
    for i := 0 to |posts|
      invariant |data| == i
      invariant forall j :: 0 <= j < i ==> data[j] == ItemOf(look, posts[j])
    {
      var id := posts[i];
      var item := Item(id, look.title(id), look.link(id), None);
      if look.acfActive {
        var fields := look.fields(id);
        if fields != map[] {
          item := item.(acf := Some(fields));
        }
      }
      data := data + [item];
    }
  }

  // ---------------------------------------------------------------------
  // batch_update
  // ---------------------------------------------------------------------

  const BatchValue := "Updated via cron"

  /** The most posts one type's query returns: `posts_per_page` 100, `paged` 1. */
  const BatchPage: nat := 100

  /** `! empty( $field['name'] )` and the name is `name`. */
  predicate Names(f: FieldDef, name: string) {
    f.name == Some(name) && Truthy(name)
  }

  predicate NamedIn(fields: seq<FieldDef>, name: string) {
    exists i :: 0 <= i < |fields| && Names(fields[i], name)
  }

  /** The value of one meta key of one post, if it has one. */
  function Get(meta: map<nat, map<string, string>>, id: nat, key: string): Option<string> {
    if key in MetaOf(meta, id) then Some(MetaOf(meta, id)[key]) else None
  }

  /** `update_field( name, 'Updated via cron', id )` for every named field, in order. */
  function WriteFields(meta: map<nat, map<string, string>>, id: nat, fields: seq<FieldDef>): map<nat, map<string, string>>
  {
    if fields == [] then meta
    else
      var m := WriteFields(meta, id, fields[..|fields| - 1]);
      var f := fields[|fields| - 1];
      if f.name.Some? && Truthy(f.name.value) then m[id := MetaOf(m, id)[f.name.value := BatchValue]] else m
  }

  /** The fields of every post in `ids`, in order. */
  function WritePosts(meta: map<nat, map<string, string>>, ids: seq<nat>, fields: seq<FieldDef>): map<nat, map<string, string>>
  {
    if ids == [] then meta
    else WriteFields(WritePosts(meta, ids[..|ids| - 1], fields), ids[|ids| - 1], fields)
  }

  /** The posts of one type that the batch visits: the first page of the query's result. */
  function FirstPage(ids: seq<nat>): (r: seq<nat>)
    ensures |r| == Min(|ids|, BatchPage) && r == ids[..|r|]
  {
    if |ids| <= BatchPage then ids else ids[..BatchPage]
  }

  /**
   * `batch_update` over the stored types: `query(slug)` is what a query for
   * the posts of that type returns, in order. A type is skipped when ACF is
   * inactive or the type has no fields.
   */
  function WriteTypes(meta: map<nat, map<string, string>>, types: seq<ContentType>, query: string -> seq<nat>, acfActive: bool): map<nat, map<string, string>>
  {
    if types == [] then meta
    else
      var m := WriteTypes(meta, types[..|types| - 1], query, acfActive);
      var t := types[|types| - 1];
      if acfActive && t.acfFields != [] then WritePosts(m, FirstPage(query(t.slug)), t.acfFields) else m
  }

  /** The batch writes this key of this post because of type `t`. */
  predicate Visits(t: ContentType, query: string -> seq<nat>, id: nat, key: string) {
    id in FirstPage(query(t.slug)) && NamedIn(t.acfFields, key)
  }

  lemma {:induction false} WriteFieldsGet(meta: map<nat, map<string, string>>, id: nat, fields: seq<FieldDef>, id': nat, key: string)
    ensures Get(WriteFields(meta, id, fields), id', key) ==
      if id' == id && NamedIn(fields, key) then Some(BatchValue) else Get(meta, id', key)
  {
    if fields != [] {
      var init := fields[..|fields| - 1];
      WriteFieldsGet(meta, id, init, id', key);
      assert NamedIn(fields, key) <==> NamedIn(init, key) || Names(fields[|fields| - 1], key) by {
        if NamedIn(fields, key) && !Names(fields[|fields| - 1], key) {
          var i :| 0 <= i < |fields| && Names(fields[i], key);
          assert Names(init[i], key);
        }
        if NamedIn(init, key) {
          var i :| 0 <= i < |init| && Names(init[i], key);
          assert Names(fields[i], key);
        }
      }
    }
  }

  lemma {:induction false} WritePostsGet(meta: map<nat, map<string, string>>, ids: seq<nat>, fields: seq<FieldDef>, id: nat, key: string)
    ensures Get(WritePosts(meta, ids, fields), id, key) ==
      if id in ids && NamedIn(fields, key) then Some(BatchValue) else Get(meta, id, key)
  {
    if ids != [] {
      var init := ids[..|ids| - 1];
      WritePostsGet(meta, init, fields, id, key);
      WriteFieldsGet(WritePosts(meta, init, fields), ids[|ids| - 1], fields, id, key);
      assert ids == init + [ids[|ids| - 1]];
    }
  }

  /**
   * After the batch, a meta key of a post holds the marker exactly when some
   * stored type with fields lists a field of that name and the post is on
   * that type's first page, and ACF is active; every other key of every
   * post is as it was (including keys the batch never writes).
   */
  lemma {:induction false} BatchWrites(meta: map<nat, map<string, string>>, types: seq<ContentType>, query: string -> seq<nat>, acfActive: bool, id: nat, key: string)
    ensures Get(WriteTypes(meta, types, query, acfActive), id, key) ==
      if acfActive && exists i :: 0 <= i < |types| && Visits(types[i], query, id, key) then Some(BatchValue)
      else Get(meta, id, key)
  {
    if types != [] {
      var init := types[..|types| - 1];
      var t := types[|types| - 1];
      BatchWrites(meta, init, query, acfActive, id, key);
      var m := WriteTypes(meta, init, query, acfActive);
      if acfActive && t.acfFields != [] {
        WritePostsGet(m, FirstPage(query(t.slug)), t.acfFields, id, key);
      }
      VisitsSnoc(types, init, query, id, key);
    }
  }

  /** Some type of `types` visits the key exactly when an earlier one does or the last one does. */
  lemma VisitsSnoc(types: seq<ContentType>, init: seq<ContentType>, query: string -> seq<nat>, id: nat, key: string)
    requires types != [] && init == types[..|types| - 1]
    ensures (exists i :: 0 <= i < |types| && Visits(types[i], query, id, key)) <==>
      (exists i :: 0 <= i < |init| && Visits(init[i], query, id, key)) || Visits(types[|types| - 1], query, id, key)
  {
    ExistsSnoc(types, init, (t: ContentType) => Visits(t, query, id, key));
  }

  /** A post beyond the first page of every type is never written. */
  lemma BatchSkipsLaterPages(meta: map<nat, map<string, string>>, types: seq<ContentType>, query: string -> seq<nat>, acfActive: bool, id: nat, key: string)
    requires forall i :: 0 <= i < |types| ==> id !in FirstPage(query(types[i].slug))
    ensures Get(WriteTypes(meta, types, query, acfActive), id, key) == Get(meta, id, key)
  {
    BatchWrites(meta, types, query, acfActive, id, key);
  }

  method UpdateFields(site: Site, id: nat, fields: seq<FieldDef>)
    modifies site`meta
    ensures site.meta == WriteFields(old(site.meta), id, fields)
  {
    ghost var meta0 := site.meta;
    for k := 0 to |fields|
      invariant site.meta == WriteFields(meta0, id, fields[..k])
    {
      assert fields[..k + 1][..k] == fields[..k];
      var f := fields[k];
      if f.name.Some? && Truthy(f.name.value) {
        site.meta := site.meta[id := MetaOf(site.meta, id)[f.name.value := BatchValue]];
      }
    }
    assert fields[..|fields|] == fields;
  }

  method UpdatePosts(site: Site, ids: seq<nat>, fields: seq<FieldDef>)
    modifies site`meta
    ensures site.meta == WritePosts(old(site.meta), ids, fields)
  {
    ghost var meta0 := site.meta;
    for j := 0 to |ids|
      invariant site.meta == WritePosts(meta0, ids[..j], fields)
    {
      assert ids[..j + 1][..j] == ids[..j];
      UpdateFields(site, ids[j], fields);
    }
    assert ids[..|ids|] == ids;
  }

  /** `batch_update`: the stored types in order, the first page of each, every named field. */
  method BatchUpdate(site: Site, query: string -> seq<nat>, acfActive: bool)
    modifies site`meta
    ensures site.meta == WriteTypes(old(site.meta), StoredTypes(site.options), query, acfActive)
  {
    var cpts := StoredTypes(site.options);
    ghost var meta0 := site.meta;
    for i := 0 to |cpts|
      invariant site.meta == WriteTypes(meta0, cpts[..i], query, acfActive)
    {
      assert cpts[..i + 1][..i] == cpts[..i];
      var cpt := cpts[i];
      var posts := query(cpt.slug);
      if |posts| > BatchPage {
        posts := posts[..BatchPage];
      }
      if acfActive && cpt.acfFields != [] {
        UpdatePosts(site, posts, cpt.acfFields);
      }
    }
    assert cpts[..|cpts|] == cpts;
  }

  // ---------------------------------------------------------------------
  // activate / deactivate
  // ---------------------------------------------------------------------

  /** `wp_next_scheduled( CRON_HOOK )` is truthy: a timestamp other than 0. */
  predicate Scheduled(next: Option<int>) {
    next.Some? && next.value != 0
  }

  /** `activate`: schedule the hourly event at `now` unless one is scheduled already. */
  function Activated(next: Option<int>, now: int): Option<int> {
    if !Scheduled(next) then Some(now) else next
  }

  /** `deactivate`: unschedule the next event when there is one. */
  function Deactivated(next: Option<int>): Option<int> {
    if Scheduled(next) then None else next
  }

  /**
   * Activation leaves an event scheduled and keeps one that exists; a second
   * activation changes nothing; deactivation leaves nothing scheduled and is a
   * no-op when nothing is.
   */
  lemma CronLifecycle(next: Option<int>, now: int, later: int)
    requires now != 0
    ensures Scheduled(Activated(next, now))
    ensures Scheduled(next) ==> Activated(next, now) == next
    ensures Activated(Activated(next, now), later) == Activated(next, now)
    ensures !Scheduled(Deactivated(next))
    ensures !Scheduled(next) ==> Deactivated(next) == next
    ensures Deactivated(Activated(next, now)) == None
  {
  }

  method Activate(site: Site, now: int)
    modifies site`cronNext
    ensures site.cronNext == Activated(old(site.cronNext), now)
  {
    if !(site.cronNext.Some? && site.cronNext.value != 0) {
      site.cronNext := Some(now);
    }
  }

  method Deactivate(site: Site)
    modifies site`cronNext
    ensures site.cronNext == Deactivated(old(site.cronNext))
  {
    var timestamp := site.cronNext;
    if timestamp.Some? && timestamp.value != 0 {
      site.cronNext := None;
    }
  }
}
