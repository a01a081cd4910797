/**
 * The per-type field-mapping table of Lightwork-plugin/includes/class-template-editor.php:
 * the option `lw_template_map_<slug>` maps a field name to the CSS selector of
 * the template element that shows it. It is written by the whole-form save in
 * `render_page` and by the single-key AJAX upsert `ajax_update_mapping`; the
 * selectors come from the client-side `lwGetSelector`, which computes the
 * selector of a drop target.
 */
module TemplateEditor {
  import opened Php
  import opened Wp
  import opened Registry
  import CptStore

  const OptionPrefix := "lw_template_map_"

  function MapOption(slug: string): string {
    OptionPrefix + slug
  }

  /** `get_option( lw_template_map_<slug>, [] )` */
  function StoredMapping(options: map<string, Value>, slug: string): map<string, string> {
    var o := MapOption(slug);
    if o in options && options[o].Selectors? then options[o].selectors else map[]
  }

  /**
   * `delete_cpt` leaves the type's selector mapping stored, so a type
   * created later under the same slug finds the old mapping.
   */
  lemma DeleteKeepsMapping(s: State, slug: string)
    ensures StoredMapping(CptStore.DeleteEffect(s, slug).options, slug) == StoredMapping(s.options, slug)
  {
    assert MapOption(slug)[1] != OptionCpts[1];
  }

  /** `! empty( $mapping[ $k ] )` */
  predicate IsMapped(mapping: map<string, string>, k: string) {
    k in mapping && Truthy(mapping[k])
  }

  /** `$field['name']`; a missing name reads as null, i.e. the key ''. */
  function NameOf(f: FieldDef): string {
    f.name.GetOr("")
  }

  // ---------------------------------------------------------------------
  // render_page: rebuild, completeness check, listing
  // ---------------------------------------------------------------------

  /** One posted `lw-mapping[key] = selector` pair. */
  type Pair = (string, string)

  function PostedKey(p: Pair): string { SanitizeKey(p.0) }

  function PostedSelector(h: Host): Pair -> string {
    (p: Pair) => h.text(p.1)
  }

  /** The mapping rebuilt from the posted pairs alone, later pairs overwriting earlier ones. */
  function Rebuilt(h: Host, posted: seq<Pair>): map<string, string> {
    PutAll(map[], posted, PostedKey, PostedSelector(h))
  }

  /**
   * The rebuilt mapping holds exactly the sanitised posted keys, each with the
   * sanitised selector of the last pair posted under it; nothing of the old
   * mapping survives.
   */
  lemma RebuiltFromPostedOnly(h: Host, posted: seq<Pair>, k: string)
    ensures Rebuilt(h, posted).Keys == set i | 0 <= i < |posted| :: PostedKey(posted[i])
    ensures match LastWithKey(posted, PostedKey, k)
      case Some(j) => k in Rebuilt(h, posted) && Rebuilt(h, posted)[k] == h.text(posted[j].1)
      case None => k !in Rebuilt(h, posted)
  {
    PutAllKeys(map[], posted, PostedKey, PostedSelector(h));
    PutAllLookup(map[], posted, PostedKey, PostedSelector(h), k);
  }

  /** The first `foreach` of the save branch. */
  method RebuildMapping(h: Host, posted: seq<Pair>) returns (mapping: map<string, string>)
    ensures mapping == Rebuilt(h, posted)
  {
    mapping := map[];
    var i := 0;
    while i < |posted|
      invariant 0 <= i <= |posted|
      invariant mapping == Rebuilt(h, posted[..i])
    {
      assert posted[..i + 1][..i] == posted[..i];
      mapping := mapping[SanitizeKey(posted[i].0) := h.text(posted[i].1)];
      i := i + 1;
    }
    assert posted[..i] == posted;
  }

  /** The names of the fields without a non-empty selector, in field order. */
  function Missing(fields: seq<FieldDef>, mapping: map<string, string>): seq<string> {
    if fields == [] then []
    else
      var n := |fields| - 1;
      Missing(fields[..n], mapping) + (if IsMapped(mapping, NameOf(fields[n])) then [] else [NameOf(fields[n])])
  }

  /** Nothing is missing exactly when every field has a non-empty selector; every missing name is unmapped. */
  lemma {:induction false} MissingIffUnmapped(fields: seq<FieldDef>, mapping: map<string, string>)
    ensures Missing(fields, mapping) == [] <==> forall f :: f in fields ==> IsMapped(mapping, NameOf(f))
    ensures forall x :: x in Missing(fields, mapping) ==> !IsMapped(mapping, x)
  {
    if fields != [] {
      var n := |fields| - 1;
      MissingIffUnmapped(fields[..n], mapping);
      assert fields == fields[..n] + [fields[n]];
    }
  }

  /** The second `foreach` of the save branch. */
  method MissingFields(fields: seq<FieldDef>, mapping: map<string, string>) returns (missing: seq<string>)
    ensures missing == Missing(fields, mapping)
  {
    missing := [];
    var i := 0;
    while i < |fields|
      invariant 0 <= i <= |fields|
      invariant missing == Missing(fields[..i], mapping)
    {
      assert fields[..i + 1][..i] == fields[..i];
      var name := fields[i].name.GetOr("");
      if !(name in mapping && Truthy(mapping[name])) {
        missing := missing + [name];
      }
      i := i + 1;
    }
    assert fields[..i] == fields;
  }

  /** The fields the form lists: those whose escaped name has no non-empty selector. */
  function Listed(h: Host, fields: seq<FieldDef>, mapping: map<string, string>): seq<FieldDef> {
    Filter(fields, f => !IsMapped(mapping, h.escAttr(NameOf(f))))
  }

  lemma ListedIffUnmapped(h: Host, fields: seq<FieldDef>, mapping: map<string, string>, f: FieldDef)
    ensures f in Listed(h, fields, mapping) <==> f in fields && !IsMapped(mapping, h.escAttr(NameOf(f)))
  {
    FilterMembership(fields, f => !IsMapped(mapping, h.escAttr(NameOf(f))), f);
  }

  /** What the admin sees. */
  datatype Screen =
    | Nothing                                       // not an administrator
    | NoTemplate                                    // "No template configured."
    | Died                                          // the save's nonce check failed
    | Editor(pageId: nat, listed: seq<FieldDef>)    // preview of the page and the unmapped fields

  /** The request to `render_page`. */
  datatype EditorRequest = EditorRequest(
    isAdmin: bool,
    slug: Option<string>,          // $_GET['slug']
    save: bool,                    // lw-save-template posted
    nonceOk: bool,
    posted: seq<Pair>)             // lw-mapping

  /** The stored type the page is for, when it has a template page. */
  function TemplatedType(types: seq<ContentType>, slug: string): Option<ContentType> {
    match FirstIndex(types, slug)
    case None => None
    case Some(i) => if types[i].templatePage == 0 then None else Some(types[i])
  }

  function RenderEffect(s: State, h: Host, req: EditorRequest): (State, Screen) {
    var slug := SanitizeKey(req.slug.GetOr(""));
    if !req.isAdmin then (s, Nothing)
    else match TemplatedType(StoredTypes(s.options), slug)
      case None => (s, NoTemplate)
      case Some(t) =>
        if !req.save then (s, Editor(t.templatePage, Listed(h, t.acfFields, StoredMapping(s.options, slug))))
        else if !req.nonceOk then (s, Died)
        else
          var m := Rebuilt(h, req.posted);
          (Saved(s, slug, t.acfFields, m), Editor(t.templatePage, Listed(h, t.acfFields, m)))
  }

  /** The save branch's state: the error notice when a field is missing, else the mapping written and the success notice. */
  function Saved(s: State, slug: string, fields: seq<FieldDef>, m: map<string, string>): State {
    if Missing(fields, m) != []
    then s.(notices := s.notices + [Notice("missing", true)])
    else s.(options := s.options[MapOption(slug) := Selectors(m)], notices := s.notices + [Notice("saved", false)])
  }

  /**
   * A save persists the rebuilt mapping exactly when every field of the type
   * has a non-empty selector in it; otherwise it only queues the error, and the
   * stored mapping is unchanged. Either way the form then lists the fields
   * still unmapped in the rebuilt mapping.
   */
  lemma SaveCommitsOnlyComplete(s: State, h: Host, req: EditorRequest)
    requires req.isAdmin && req.save && req.nonceOk
    requires TemplatedType(StoredTypes(s.options), SanitizeKey(req.slug.GetOr(""))).Some?
    ensures var slug := SanitizeKey(req.slug.GetOr(""));
      var t := TemplatedType(StoredTypes(s.options), slug).value;
      var m := Rebuilt(h, req.posted);
      var (r, screen) := RenderEffect(s, h, req);
      ((forall f :: f in t.acfFields ==> IsMapped(m, NameOf(f))) ==>
          StoredMapping(r.options, slug) == m && r.notices == s.notices + [Notice("saved", false)])
      && (!(forall f :: f in t.acfFields ==> IsMapped(m, NameOf(f))) ==>
          r.options == s.options && r.notices == s.notices + [Notice("missing", true)])
      && screen == Editor(t.templatePage, Listed(h, t.acfFields, m))
  {
    var slug := SanitizeKey(req.slug.GetOr(""));
    var t := TemplatedType(StoredTypes(s.options), slug).value;
    RenderSaveIs(s, h, req);
    SavedSpec(s, slug, t.acfFields, Rebuilt(h, req.posted));
  }

  /** The save branch of `RenderEffect`, once the type, the nonce and the capability are settled. */
  lemma RenderSaveIs(s: State, h: Host, req: EditorRequest)
    requires req.isAdmin && req.save && req.nonceOk
    requires TemplatedType(StoredTypes(s.options), SanitizeKey(req.slug.GetOr(""))).Some?
    ensures var slug := SanitizeKey(req.slug.GetOr(""));
      var t := TemplatedType(StoredTypes(s.options), slug).value;
      var m := Rebuilt(h, req.posted);
      RenderEffect(s, h, req) == (Saved(s, slug, t.acfFields, m), Editor(t.templatePage, Listed(h, t.acfFields, m)))
  {
  }

  /** The mapping is written, with the success notice, exactly when no field is left unmapped. */
  lemma SavedSpec(s: State, slug: string, fields: seq<FieldDef>, m: map<string, string>)
    ensures var r := Saved(s, slug, fields, m);
      ((forall f :: f in fields ==> IsMapped(m, NameOf(f))) ==>
          StoredMapping(r.options, slug) == m && r.notices == s.notices + [Notice("saved", false)])
      && (!(forall f :: f in fields ==> IsMapped(m, NameOf(f))) ==>
          r.options == s.options && r.notices == s.notices + [Notice("missing", true)])
  {
    MissingIffUnmapped(fields, m);
  }

  /** Without a stored type of that slug carrying a template page, nothing is written and only the notice shows. */
  lemma NoTemplateWritesNothing(s: State, h: Host, req: EditorRequest)
    requires req.isAdmin
    ensures var slug := SanitizeKey(req.slug.GetOr(""));
      var types := StoredTypes(s.options);
      (FirstIndex(types, slug).None? || types[FirstIndex(types, slug).value].templatePage == 0)
        ==> RenderEffect(s, h, req) == (s, NoTemplate)
  {
  }

  method RenderPage(site: Site, h: Host, req: EditorRequest) returns (screen: Screen)
    modifies site`options, site`notices
    ensures (site.Snap(), screen) == RenderEffect(old(site.Snap()), h, req)
  {
    if !req.isAdmin {
      return Nothing;
    }
    var slug := SanitizeKey(req.slug.GetOr(""));
    var types := StoredTypes(site.options);
    var i := 0;
    while i < |types| && types[i].slug != slug
      invariant 0 <= i <= |types|
      invariant forall j :: 0 <= j < i ==> types[j].slug != slug
    {
      i := i + 1;
    }
    if i == |types| || types[i].templatePage == 0 {
      return NoTemplate;
    }
    assert FirstIndex(types, slug) == Some(i);
    var t := types[i];
    var mapping := StoredMapping(site.options, slug);
    if req.save {
      if !req.nonceOk {
        return Died;
      }
      mapping := RebuildMapping(h, req.posted);
      var missing := MissingFields(t.acfFields, mapping);
      if missing != [] {
        site.AddNotice("missing", true);
      } else {
        site.options := site.options[MapOption(slug) := Selectors(mapping)];
        site.AddNotice("saved", false);
      }
    }
    screen := Editor(t.templatePage, Listed(h, t.acfFields, mapping));
  }

  // ---------------------------------------------------------------------
  // ajax_update_mapping
  // ---------------------------------------------------------------------

  /** What the endpoint answers; each answer ends the request. */
  datatype Reply = JsonSuccess | JsonError | NonceFailed

  /** `$_POST[$k] ?? ''` */
  function Param(post: map<string, string>, k: string): string {
    if k in post then post[k] else ""
  }

  function UpdateEffect(s: State, h: Host, isAdmin: bool, nonceOk: bool, post: map<string, string>): (State, Reply) {
    var slug := SanitizeKey(Param(post, "slug"));
    var field := SanitizeKey(Param(post, "field"));
    var selector := h.text(Param(post, "selector"));
    if !isAdmin then (s, JsonError)
    else if !nonceOk then (s, NonceFailed)
    else if !Truthy(slug) || !Truthy(field) then (s, JsonError)
    else (s.(options := s.options[MapOption(slug) := Selectors(StoredMapping(s.options, slug)[field := selector])]), JsonSuccess)
  }

  /**
   * A successful update sets exactly `mapping[field] = selector` in the type's
   * option, keeps every other key of it and every other option; an empty
   * sanitised slug or field writes nothing.
   */
  lemma UpdateIsUpsert(s: State, h: Host, isAdmin: bool, nonceOk: bool, post: map<string, string>)
    ensures var slug := SanitizeKey(Param(post, "slug"));
      var field := SanitizeKey(Param(post, "field"));
      var (r, reply) := UpdateEffect(s, h, isAdmin, nonceOk, post);
      (reply == JsonSuccess <==> isAdmin && nonceOk && Truthy(slug) && Truthy(field))
      && (reply != JsonSuccess ==> r == s)
      && (reply == JsonSuccess ==>
            var m := StoredMapping(r.options, slug);
            field in m && m[field] == h.text(Param(post, "selector"))
            && (forall k :: k != field ==>
                  (k in m <==> k in StoredMapping(s.options, slug)) && (k in m ==> m[k] == StoredMapping(s.options, slug)[k]))
            && (forall o :: o != MapOption(slug) ==>
                  (o in r.options <==> o in s.options) && (o in r.options ==> r.options[o] == s.options[o])))
  {
  }

  method AjaxUpdateMapping(site: Site, h: Host, isAdmin: bool, nonceOk: bool, post: map<string, string>)
    returns (reply: Reply)
    modifies site`options
    ensures (site.Snap(), reply) == UpdateEffect(old(site.Snap()), h, isAdmin, nonceOk, post)
  {
    if !isAdmin {
      return JsonError;
    }
    if !nonceOk {
      return NonceFailed;
    }
    var slug := SanitizeKey(if "slug" in post then post["slug"] else "");
    var field := SanitizeKey(if "field" in post then post["field"] else "");
    var selector := h.text(if "selector" in post then post["selector"] else "");
    if !Truthy(slug) || !Truthy(field) {
      return JsonError;
    }
    var option := OptionPrefix + slug;
    var mapping := StoredMapping(site.options, slug);
    mapping := mapping[field := selector];
    site.options := site.options[option := Selectors(mapping)];
    reply := JsonSuccess;
  }

  // ---------------------------------------------------------------------
  // lwGetSelector
  // ---------------------------------------------------------------------

  /** An element: its tag name, its id ('' when none) and its index among its siblings. */
  datatype Node = Node(tag: string, id: string, index: nat)

  /** `tagName.toLowerCase()`, folding ASCII letters only. */
  function Lower(s: string): (r: string)
    ensures |r| == |s|
  {
    seq(|s|, i requires 0 <= i < |s| => LowerAscii(s[i]))
  }

  /** One step of the path: the lower-case tag, then `:eq(i)` unless the element is a first child. */
  function Segment(n: Node): string {
    Lower(n.tag) + (if n.index != 0 then ":eq(" + NatToString(n.index) + ")" else "")
  }

  /** Index of the first element of the chain (target first, root last) that has an id. */
  function FirstWithId(chain: seq<Node>): (k: nat)
    ensures k <= |chain|
    ensures k < |chain| ==> chain[k].id != ""
    ensures forall j :: 0 <= j < k ==> chain[j].id == ""
  {
    if chain == [] then 0
    else if chain[0].id != "" then 0
    else 1 + FirstWithId(chain[1..])
  }

  /** The segments of `chain[..k]` joined by `>`, from the outermost `chain[k-1]` to the target. */
  function Path(chain: seq<Node>, k: nat): string
    requires k <= |chain|
  {
    if k == 0 then ""
    else if k == 1 then Segment(chain[0])
    else Segment(chain[k - 1]) + ">" + Path(chain, k - 1)
  }

  /**
   * The selector of the drop target `chain[0]`, whose ancestors follow in
   * order: anchored at `#id` of the nearest element (itself included) with an
   * id, else relative to the root.
   */
  function Selector(chain: seq<Node>): string {
    var k := FirstWithId(chain);
    if k < |chain| then "#" + chain[k].id + (if k > 0 then ">" + Path(chain, k) else "")
    else Path(chain, k)
  }

  /** Every tag name is non-empty, as for every DOM element. */
  predicate Tagged(chain: seq<Node>) {
    forall i :: 0 <= i < |chain| ==> chain[i].tag != ""
  }

  /** An element with an id is addressed by that id alone. */
  lemma SelectorOfIdentified(chain: seq<Node>)
    requires chain != [] && chain[0].id != ""
    ensures Selector(chain) == "#" + chain[0].id
  {
  }

  /** One more element of the chain puts its segment in front; a path over tagged elements is never empty. */
  lemma PathStep(chain: seq<Node>, i: nat)
    requires i < |chain| && chain[i].tag != ""
    requires i > 0 ==> chain[i - 1].tag != ""
    ensures Path(chain, i + 1) != ""
    ensures Path(chain, i + 1) == Segment(chain[i]) + (if Path(chain, i) != "" then ">" + Path(chain, i) else "")
  {
    SegmentNonEmpty(chain[i]);
    if i > 0 {
      SegmentNonEmpty(chain[i - 1]);
    }
  }

  lemma SegmentNonEmpty(n: Node)
    requires n.tag != ""
    ensures Segment(n) != ""
  {
    assert |Lower(n.tag)| > 0;
  }

  /** The loop stops at the first element with an id, or past the root. */
  lemma {:induction false} FirstWithIdAt(chain: seq<Node>, i: nat)
    requires i <= |chain|
    requires forall j :: 0 <= j < i ==> chain[j].id == ""
    requires i < |chain| ==> chain[i].id != ""
    ensures FirstWithId(chain) == i
    decreases i
  {
    if i > 0 {
      FirstWithIdAt(chain[1..], i - 1);
    }
  }

  /** The anchoring `if` of `lwGetSelector`, after the walk up the chain. */
  method GetSelector(chain: seq<Node>) returns (sel: string)
    ensures Tagged(chain) ==> sel == Selector(chain)
    ensures chain != [] && chain[0].id != "" ==> sel == "#" + chain[0].id
  {
    var i;
    i, sel := WalkUp(chain);
    if i < |chain| {
      sel := "#" + chain[i].id + (if sel != "" then ">" + sel else "");
    }
  }

  /** The `while` loop of `lwGetSelector`: segments are prepended until an element with an id, or the root, is passed. */
  method WalkUp(chain: seq<Node>) returns (i: nat, sel: string)
    ensures i == FirstWithId(chain)
    ensures Tagged(chain) ==> sel == Path(chain, i)
    ensures i == 0 ==> sel == ""
    ensures Tagged(chain) && i > 0 ==> sel != ""
  {
    sel := "";
    i := 0;
    while i < |chain| && chain[i].id == ""
      invariant i <= |chain|
      invariant forall j :: 0 <= j < i ==> chain[j].id == ""
      invariant Tagged(chain) ==> sel == Path(chain, i)
      invariant i == 0 ==> sel == ""
      invariant Tagged(chain) && i > 0 ==> sel != ""
    {
      var seg := Segment(chain[i]);
      if Tagged(chain) {
        if i > 0 {
          assert chain[i - 1].tag != "";
        }
        PathStep(chain, i);
      }
      sel := seg + (if sel != "" then ">" + sel else "");
      i := i + 1;
    }
    FirstWithIdAt(chain, i);
  }
}
