/**
 * The content-type registry shared by the two plugin trees: the ordered list
 * of records stored in `lightwork_cpts` (looked up by slug, first match wins,
 * no uniqueness check), the defaults `register_cpt` applies, and the pieces of
 * `handle_form_submission` and `delete_cpt` that are written identically in
 * includes/class-cpt-system.php and lightwork-wp-plugin.php.
 */
module Registry {
  import opened Php
  import opened Wp

  // ---------------------------------------------------------------------
  // The record list.
  // ---------------------------------------------------------------------

  /** The first record whose slug is `slug`, as every `foreach ... break` lookup finds it. */
  function FirstIndex(types: seq<ContentType>, slug: string): (r: Option<nat>)
    ensures r.Some? ==> r.value < |types| && types[r.value].slug == slug
    ensures r.Some? ==> forall j :: 0 <= j < r.value ==> types[j].slug != slug
    ensures r.None? ==> forall j :: 0 <= j < |types| ==> types[j].slug != slug
  {
    if types == [] then None
    else if types[0].slug == slug then Some(0)
    else match FirstIndex(types[1..], slug)
      case None => None
      case Some(i) => Some(i + 1)
  }

  /** Editing: the first record with `oldSlug` becomes `rec`; every other record stays where it was. */
  function ReplaceFirst(types: seq<ContentType>, oldSlug: string, rec: ContentType): (r: seq<ContentType>)
    ensures |r| == |types|
    ensures FirstIndex(types, oldSlug).None? ==> r == types
    ensures FirstIndex(types, oldSlug).Some? ==>
      var i := FirstIndex(types, oldSlug).value;
      r[i] == rec && forall j :: 0 <= j < |r| && j != i ==> r[j] == types[j]
  {
    match FirstIndex(types, oldSlug)
    case None => types
    case Some(i) => types[i := rec]
  }

  /** Deleting: `unset` of the first record with `slug`, then `array_values`. */
  function RemoveFirst(types: seq<ContentType>, slug: string): seq<ContentType> {
    match FirstIndex(types, slug)
    case None => types
    case Some(i) => types[..i] + types[i + 1..]
  }

  /**
   * Deleting removes exactly one record with the slug when there is one, and
   * keeps every other record, in order.
   */
  lemma RemoveFirstRemovesOne(types: seq<ContentType>, slug: string)
    ensures FirstIndex(types, slug).None? ==> RemoveFirst(types, slug) == types
    ensures FirstIndex(types, slug).Some? ==>
      var i := FirstIndex(types, slug).value;
      |RemoveFirst(types, slug)| == |types| - 1
      && multiset(RemoveFirst(types, slug)) == multiset(types) - multiset{types[i]}
      && (forall j :: 0 <= j < i ==> RemoveFirst(types, slug)[j] == types[j])
      && (forall j :: i < j < |types| ==> RemoveFirst(types, slug)[j - 1] == types[j])
  {
    if FirstIndex(types, slug).Some? {
      DropAt(types, FirstIndex(types, slug).value);
    }
  }

  /** Cutting out position `i` keeps the entries before it, shifts the ones after it, and removes one occurrence. */
  lemma DropAt<T>(s: seq<T>, i: nat)
    requires i < |s|
    ensures var r := s[..i] + s[i + 1..];
      |r| == |s| - 1
      && multiset(r) == multiset(s) - multiset{s[i]}
      && (forall j :: 0 <= j < i ==> r[j] == s[j])
      && (forall j :: i < j < |s| ==> r[j - 1] == s[j])
  {
    DropAtCount(s, i);
  }

  lemma DropAtCount<T>(s: seq<T>, i: nat)
    requires i < |s|
    ensures multiset(s[..i] + s[i + 1..]) == multiset(s) - multiset{s[i]}
  {
    var a, b := s[..i], s[i + 1..];
    assert s == a + ([s[i]] + b);
    calc {
      multiset(s);
      multiset(a) + multiset([s[i]] + b);
      multiset(a) + (multiset{s[i]} + multiset(b));
    }
  }

  /** A record created with a slug not yet stored is the one every lookup by that slug finds. */
  lemma {:induction false} CreatedIsFound(types: seq<ContentType>, rec: ContentType)
    requires FirstIndex(types, rec.slug).None?
    ensures FirstIndex(types + [rec], rec.slug) == Some(|types|)
  {
    if types != [] {
      assert (types + [rec])[1..] == types[1..] + [rec];
      CreatedIsFound(types[1..], rec);
    }
  }

  /** Creating and then deleting a record with a fresh slug restores the list. */
  lemma CreateThenDelete(types: seq<ContentType>, rec: ContentType)
    requires FirstIndex(types, rec.slug).None?
    ensures RemoveFirst(types + [rec], rec.slug) == types
  {
    CreatedIsFound(types, rec);
    assert (types + [rec])[..|types|] == types;
  }

  /** Appending never changes which record an existing slug finds first. */
  lemma {:induction false} FirstIndexAppend(types: seq<ContentType>, rec: ContentType, slug: string)
    requires FirstIndex(types, slug).Some?
    ensures FirstIndex(types + [rec], slug) == FirstIndex(types, slug)
  {
    if types[0].slug != slug {
      assert (types + [rec])[1..] == types[1..] + [rec];
      FirstIndexAppend(types[1..], rec, slug);
    }
  }

  /**
   * With no uniqueness check, a record created with a slug that is already
   * stored is shadowed: editing and deleting by that slug reach the older record
   * and leave the new one, last in the list, untouched.
   */
  lemma DuplicateIsShadowed(types: seq<ContentType>, rec: ContentType, other: ContentType)
    requires FirstIndex(types, rec.slug).Some?
    ensures FirstIndex(types + [rec], rec.slug) == FirstIndex(types, rec.slug)
    ensures ReplaceFirst(types + [rec], rec.slug, other) == ReplaceFirst(types, rec.slug, other) + [rec]
    ensures RemoveFirst(types + [rec], rec.slug) == RemoveFirst(types, rec.slug) + [rec]
  {
    FirstIndexAppend(types, rec, rec.slug);
    var i := FirstIndex(types, rec.slug).value;
    assert (types + [rec])[..i] == types[..i];
    assert (types + [rec])[i + 1..] == types[i + 1..] + [rec];
  }

  // ---------------------------------------------------------------------
  // register_cpt: the defaults and the guard.
  // ---------------------------------------------------------------------

  /** The array handed to `register_cpt`; a missing (or null) key is `None`. */
  datatype CptArgs = CptArgs(
    slug: Option<string>,
    single: Option<string>,
    plural: Option<string>,
    public: Option<bool>,
    hasArchive: Option<bool>,
    supports: Option<seq<string>>,   // None also when the value is not an array
    acfFields: Option<seq<FieldDef>>,
    menuIcon: Option<string>,
    rewriteSlug: Option<string>,
    hierarchical: Option<bool>)

  /** The arguments built from a stored record: every key is set. */
  function ArgsOf(t: ContentType): CptArgs {
    CptArgs(Some(t.slug), Some(t.single), Some(t.plural), Some(t.public), Some(t.hasArchive),
            Some(t.supports), Some(t.acfFields), Some(t.menuIcon), Some(t.rewriteSlug), Some(t.hierarchical))
  }

  const DefaultSupports: seq<string> := ["title", "editor", "thumbnail"]

  /** `isset( $x ) ? sanitize_text_field( $x ) : ''` */
  function TextOr(h: Host, x: Option<string>): string {
    if x.Some? then h.text(x.value) else ""
  }

  function KeyAll(s: seq<string>): (r: seq<string>)
    ensures |r| == |s| && forall i :: 0 <= i < |s| ==> r[i] == SanitizeKey(s[i])
  {
    seq(|s|, i requires 0 <= i < |s| => SanitizeKey(s[i]))
  }

  function LabelsFor(single: string, plural: string): Labels {
    Labels(plural, single, "Add New " + single, "Edit " + single, "New " + single,
           "View " + single, "Search " + plural, "No items found", "No items found in Trash")
  }

  /** What `register_cpt` hands to WordPress and ACF. */
  datatype Registration = Registration(slug: string, args: PostTypeArgs, fields: seq<FieldDef>)

  /**
   * `register_cpt`: nothing is registered unless the sanitised slug, singular
   * and plural are all truthy; otherwise every missing key takes its default.
   */
  function Register(a: CptArgs, h: Host): (r: Option<Registration>)
    ensures r.Some? <==>
      Truthy(SanitizeKey(a.slug.GetOr(""))) && Truthy(TextOr(h, a.single)) && Truthy(TextOr(h, a.plural))
    ensures r.Some? ==> r.value.slug == SanitizeKey(a.slug.GetOr(""))
    ensures r.Some? ==> r.value.args.public == a.public.GetOr(true)
    ensures r.Some? ==> r.value.args.hasArchive == a.hasArchive.GetOr(true)
    ensures r.Some? ==> r.value.args.hierarchical == a.hierarchical.GetOr(false)
    ensures r.Some? ==> r.value.args.supports == (if a.supports.Some? then KeyAll(a.supports.value) else DefaultSupports)
    ensures r.Some? ==> r.value.args.rewriteSlug == (if a.rewriteSlug.Some? then h.titleDashes(a.rewriteSlug.value) else r.value.slug)
    ensures r.Some? ==> r.value.args.showInRest
    ensures r.Some? ==> r.value.fields == a.acfFields.GetOr([])
    ensures r.Some? ==> (r.value.args.menuIcon.Some? <==> Truthy(TextOr(h, a.menuIcon)))
  {
    var slug := SanitizeKey(a.slug.GetOr(""));
    var single := TextOr(h, a.single);
    var plural := TextOr(h, a.plural);
    var supports := if a.supports.Some? then KeyAll(a.supports.value) else DefaultSupports;
    var fields := a.acfFields.GetOr([]);
    var menuIcon := TextOr(h, a.menuIcon);
    var rewrite := if a.rewriteSlug.Some? then h.titleDashes(a.rewriteSlug.value) else slug;
    if !Truthy(slug) || !Truthy(single) || !Truthy(plural) then None
    else
      var args := PostTypeArgs(LabelsFor(single, plural), a.public.GetOr(true), true, a.hasArchive.GetOr(true),
                               rewrite, supports, a.hierarchical.GetOr(false),
                               if Truthy(menuIcon) then Some(menuIcon) else None);
      Some(Registration(slug, args, fields))
  }

  // ---------------------------------------------------------------------
  // handle_form_submission: the posted form and the record it yields.
  // ---------------------------------------------------------------------

  /** The posted admin form; a missing `$_POST` key is `None` (or `false` for checkboxes). */
  datatype CptForm = CptForm(
    slug: Option<string>,
    single: Option<string>,
    plural: Option<string>,
    public: bool,
    archive: bool,
    supports: Option<seq<string>>,
    menuIcon: Option<string>,
    rewriteSlug: Option<string>,
    hierarchical: bool,
    acfOn: bool,
    labels: seq<string>,
    names: seq<string>,
    types: seq<string>,
    useTemplate: bool,
    templatePage: Option<string>)

  function FormSlug(f: CptForm): string {
    SanitizeKey(f.slug.GetOr(""))
  }

  /** The presence check: slug, singular and plural must all be truthy. */
  predicate FormValid(f: CptForm, h: Host) {
    Truthy(FormSlug(f)) && Truthy(TextOr(h, f.single)) && Truthy(TextOr(h, f.plural))
  }

  predicate NameKept(name: string) {
    Truthy(SanitizeKey(name))
  }

  /** The field built from row `i`: label and type fall back with `??`, i.e. only when the index is missing. */
  function FormField(h: Host, f: CptForm, i: nat): FieldDef
    requires i < |f.names|
  {
    var name := SanitizeKey(f.names[i]);
    FieldDef(Some(h.text(if i < |f.labels| then f.labels[i] else name)),
             Some(name),
             Some(h.text(if i < |f.types| then f.types[i] else "text")))
  }

  /** The fields built from the first `n` rows: one per kept name, in row order. */
  function FieldsBefore(h: Host, f: CptForm, n: nat): seq<FieldDef>
    requires n <= |f.names|
  {
    var ks := Positions(f.names[..n], NameKept);
    seq(|ks|, k requires 0 <= k < |ks| => FormField(h, f, ks[k]))
  }

  /** The field list a submission stores: empty unless ACF is enabled on the form. */
  function FormFields(h: Host, f: CptForm): seq<FieldDef> {
    if f.acfOn then FieldsBefore(h, f, |f.names|) else []
  }

  /** The record a submission stores, given its fields and its template page. */
  function RecordOf(f: CptForm, h: Host, fields: seq<FieldDef>, templatePage: nat): ContentType {
    var slug := FormSlug(f);
    ContentType(slug, TextOr(h, f.single), TextOr(h, f.plural), f.public, f.archive,
                if f.supports.Some? then KeyAll(f.supports.value) else [],
                fields, TextOr(h, f.menuIcon),
                if f.rewriteSlug.Some? then h.titleDashes(f.rewriteSlug.value) else slug,
                f.hierarchical, templatePage)
  }

  /** One more row adds its field exactly when its sanitised name is kept. */
  lemma FieldsBeforeStep(h: Host, f: CptForm, i: nat)
    requires i < |f.names|
    ensures FieldsBefore(h, f, i + 1) ==
      FieldsBefore(h, f, i) + (if NameKept(f.names[i]) then [FormField(h, f, i)] else [])
  {
    assert f.names[..i + 1][..i] == f.names[..i];
  }

  /** The loop that builds the field list from the parallel name/label/type rows. */
  method BuildAcfFields(f: CptForm, h: Host) returns (fields: seq<FieldDef>)
    ensures fields == FormFields(h, f)
  {
    fields := [];
    if f.acfOn {
      var i := 0;
      while i < |f.names|
        invariant 0 <= i <= |f.names|
        invariant fields == FieldsBefore(h, f, i)
      {
        var name := SanitizeKey(f.names[i]);
        FieldsBeforeStep(h, f, i);
        if Truthy(name) {
          var caption := h.text(if i < |f.labels| then f.labels[i] else name);
          var typ := h.text(if i < |f.types| then f.types[i] else "text");
          fields := fields + [FieldDef(Some(caption), Some(name), Some(typ))];
        }
        i := i + 1;
      }
    }
  }

  /** The by-reference loop of the edit branch: overwrite the first record with `oldSlug`, then `break`. */
  method UpdateFirst(types: seq<ContentType>, oldSlug: string, rec: ContentType)
    returns (r: seq<ContentType>, found: bool)
    ensures r == ReplaceFirst(types, oldSlug, rec)
    ensures found <==> FirstIndex(types, oldSlug).Some?
  {
    r, found := types, false;
    var i := 0;
    while i < |r|
      invariant 0 <= i <= |r| && r == types
      invariant forall j :: 0 <= j < i ==> types[j].slug != oldSlug
    {
      if r[i].slug == oldSlug {
        r := r[i := rec];
        found := true;
        break;
      }
      i := i + 1;
    }
  }

  /** The loop of `delete_cpt`: `unset` the first record with `slug`, `break`, then `array_values`. */
  method DeleteFirst(types: seq<ContentType>, slug: string) returns (r: seq<ContentType>)
    ensures r == RemoveFirst(types, slug)
  {
    var i := 0;
    while i < |types| && types[i].slug != slug
      invariant 0 <= i <= |types|
      invariant forall j :: 0 <= j < i ==> types[j].slug != slug
    {
      i := i + 1;
    }
    r := if i < |types| then types[..i] + types[i + 1..] else types;
  }
}
