/**
 * The stateful half of the content-type registry that both plugin trees share
 * word for word: `register_cpt` (post type, ACF group and quick-edit hooks),
 * `register_saved_cpts`, the commit that follows validation in
 * `handle_form_submission`, and `delete_cpt`. Each operation is a method on the
 * `Site` proved against a function from the old host state to the new one.
 */
module CptStore {
  import opened Php
  import opened Wp
  import opened Registry
  import AcfSystem

  // ---------------------------------------------------------------------
  // register_cpt
  // ---------------------------------------------------------------------

  /** The field groups after `register_fields` for `slug`. */
  function GroupsAfter(fg: map<string, FieldGroup>, h: Host, acfActive: bool, slug: string, fields: seq<FieldDef>): map<string, FieldGroup> {
    var g := AcfSystem.GroupFor(h, slug, fields);
    if acfActive && g.Some? then fg["group_" + slug := g.value] else fg
  }

  /**
   * The host state after `register_cpt( a )`: nothing changes when the guard
   * fails; otherwise the post type is registered under its sanitised slug,
   * its ACF group and quick-edit hooks are added, and nothing else changes.
   */
  function RegisterEffect(s: State, h: Host, acfActive: bool, a: CptArgs): (r: State)
    ensures Register(a, h).None? ==> r == s
    ensures Register(a, h).Some? ==> r.postTypes == s.postTypes[Register(a, h).value.slug := Register(a, h).value.args]
    ensures r.options == s.options && r.posts == s.posts && r.nextId == s.nextId && r.meta == s.meta
    ensures r.notices == s.notices && r.cronNext == s.cronNext
  {
    match Register(a, h)
    case None => s
    case Some(reg) =>
      s.(postTypes := s.postTypes[reg.slug := reg.args],
         fieldGroups := GroupsAfter(s.fieldGroups, h, acfActive, reg.slug, reg.fields),
         quickEdit := if reg.fields == [] then s.quickEdit else s.quickEdit + [(reg.slug, reg.fields)])
  }

  /** The guard and the defaulted arguments at the top of `register_cpt`. */
  method BuildRegistration(h: Host, a: CptArgs) returns (reg: Option<Registration>)
    ensures reg == Register(a, h)
  {
    var slug := SanitizeKey(a.slug.GetOr(""));
    var single := TextOr(h, a.single);
    var plural := TextOr(h, a.plural);
    var supports := if a.supports.Some? then KeyAll(a.supports.value) else DefaultSupports;
    var fields := a.acfFields.GetOr([]);
    var menuIcon := TextOr(h, a.menuIcon);
    var rewrite := if a.rewriteSlug.Some? then h.titleDashes(a.rewriteSlug.value) else slug;
    if !Truthy(slug) || !Truthy(single) || !Truthy(plural) {
      return None;
    }
    var args := PostTypeArgs(LabelsFor(single, plural), a.public.GetOr(true), true, a.hasArchive.GetOr(true),
                             rewrite, supports, a.hierarchical.GetOr(false),
                             if Truthy(menuIcon) then Some(menuIcon) else None);
    reg := Some(Registration(slug, args, fields));
  }

  method RegisterCpt(site: Site, h: Host, acfActive: bool, a: CptArgs)
    modifies site`postTypes, site`fieldGroups, site`quickEdit
    ensures site.Snap() == RegisterEffect(old(site.Snap()), h, acfActive, a)
  {
    ghost var s0 := site.Snap();
    var reg := BuildRegistration(h, a);
    if reg.None? {
      return;
    }
    var slug, args, fields := reg.value.slug, reg.value.args, reg.value.fields;
    site.postTypes := site.postTypes[slug := args];
    AcfSystem.RegisterFields(site, h, acfActive, slug, fields);
    assert site.fieldGroups == GroupsAfter(s0.fieldGroups, h, acfActive, slug, fields);
    ghost var s1 := site.Snap();
    assert s1 == s0.(postTypes := s0.postTypes[slug := args], fieldGroups := GroupsAfter(s0.fieldGroups, h, acfActive, slug, fields));
    AcfSystem.AddQuickEdit(site, slug, fields);
    assert site.Snap() == s1.(quickEdit := if fields == [] then s1.quickEdit else s1.quickEdit + [(slug, fields)]);
  }

  /** `register_saved_cpts`: `register_cpt` for every stored record, in order. */
  function RegisterAll(s: State, h: Host, acfActive: bool, types: seq<ContentType>): State {
    if types == [] then s
    else
      var n := |types| - 1;
      RegisterEffect(RegisterAll(s, h, acfActive, types[..n]), h, acfActive, ArgsOf(types[n]))
  }

  /** Registering the stored types touches only the registries, never the stored list or the posts. */
  lemma {:induction false} RegisterAllKeepsStore(s: State, h: Host, acfActive: bool, types: seq<ContentType>)
    ensures RegisterAll(s, h, acfActive, types).options == s.options
    ensures RegisterAll(s, h, acfActive, types).posts == s.posts
    ensures RegisterAll(s, h, acfActive, types).notices == s.notices
  {
    if types != [] {
      RegisterAllKeepsStore(s, h, acfActive, types[..|types| - 1]);
    }
  }

  /** One more stored record registers one more type on top of the earlier ones. */
  lemma RegisterAllSnoc(s: State, h: Host, acfActive: bool, types: seq<ContentType>, i: nat)
    requires i < |types|
    ensures RegisterAll(s, h, acfActive, types[..i + 1])
      == RegisterEffect(RegisterAll(s, h, acfActive, types[..i]), h, acfActive, ArgsOf(types[i]))
  {
    assert types[..i + 1][..i] == types[..i];
  }

  method RegisterSaved(site: Site, h: Host, acfActive: bool)
    modifies site`postTypes, site`fieldGroups, site`quickEdit
    ensures site.Snap() == RegisterAll(old(site.Snap()), h, acfActive, StoredTypes(old(site.options)))
  {
    ghost var s0 := site.Snap();
    var types := StoredTypes(site.options);
    var i := 0;
    while i < |types|
      invariant 0 <= i <= |types|
      invariant site.Snap() == RegisterAll(s0, h, acfActive, types[..i])
    {
      RegisterAllSnoc(s0, h, acfActive, types, i);
      RegisterCpt(site, h, acfActive, ArgsOf(types[i]));
      i := i + 1;
    }
    assert types[..i] == types;
  }

  // ---------------------------------------------------------------------
  // handle_form_submission, from validation on
  // ---------------------------------------------------------------------

  /** The stored list after a valid submission: edit in place when an old slug is given, else append. */
  function Submitted(types: seq<ContentType>, rec: ContentType, oldSlug: string): seq<ContentType> {
    if Truthy(oldSlug) then ReplaceFirst(types, oldSlug, rec) else types + [rec]
  }

  /** Whether the submission re-types posts: an edit that found its record and changed the slug. */
  predicate Renames(types: seq<ContentType>, oldSlug: string, slug: string) {
    Truthy(oldSlug) && FirstIndex(types, oldSlug).Some? && oldSlug != slug
  }

  /**
   * Everything `handle_form_submission` does once the fields and the template
   * page are known: an invalid form only queues the error notice; a valid one
   * writes the list, re-types posts on a rename, registers the type, and
   * queues the notices.
   */
  function CommitEffect(s: State, h: Host, acfActive: bool, form: CptForm, fields: seq<FieldDef>,
                        oldSlug: string, page: nat, useTemplate: bool): (r: State)
    ensures !FormValid(form, h) ==> r == s.(notices := s.notices + [Notice("invalid", true)])
    ensures FormValid(form, h) ==>
      StoredTypes(r.options) == Submitted(StoredTypes(s.options), RecordOf(form, h, fields, if useTemplate then page else 0), oldSlug)
    ensures r.nextId == s.nextId && r.meta == s.meta && r.cronNext == s.cronNext
  {
    if !FormValid(form, h) then s.(notices := s.notices + [Notice("invalid", true)])
    else
      var rec := RecordOf(form, h, fields, if useTemplate then page else 0);
      var s2 := RegisterEffect(Written(s, rec, oldSlug), h, acfActive, ArgsOf(rec));
      s2.(notices := s2.notices + CommitNotices(useTemplate))
  }

  /** The notices a valid submission queues: success, then the template notice when a page was linked. */
  function CommitNotices(useTemplate: bool): seq<Notice> {
    [Notice("success", false)] + (if useTemplate then [Notice("template", false)] else [])
  }

  /** The list write of a valid submission, with the re-typing of posts on a rename. */
  function Written(s: State, rec: ContentType, oldSlug: string): State {
    var types := StoredTypes(s.options);
    s.(options := s.options[OptionCpts := TypeList(Submitted(types, rec, oldSlug))],
       posts := if Renames(types, oldSlug, rec.slug) then Retyped(s.posts, oldSlug, rec.slug) else s.posts)
  }

  /**
   * A valid edit replaces only the first record with the old slug (none when
   * there is no such record); when it renames, every post of the old type, and
   * no other, now has the new type.
   */
  lemma EditEffect(s: State, h: Host, acfActive: bool, form: CptForm, fields: seq<FieldDef>,
                   oldSlug: string, page: nat, useTemplate: bool)
    requires FormValid(form, h) && Truthy(oldSlug)
    ensures var types := StoredTypes(s.options);
      var r := CommitEffect(s, h, acfActive, form, fields, oldSlug, page, useTemplate);
      var rec := RecordOf(form, h, fields, if useTemplate then page else 0);
      && |StoredTypes(r.options)| == |types|
      && (FirstIndex(types, oldSlug).None? ==> StoredTypes(r.options) == types && r.posts == s.posts)
      && (FirstIndex(types, oldSlug).Some? ==>
            var i := FirstIndex(types, oldSlug).value;
            StoredTypes(r.options)[i] == rec
            && (forall j :: 0 <= j < |types| && j != i ==> StoredTypes(r.options)[j] == types[j]))
      && r.posts.Keys == s.posts.Keys
      && (forall id :: id in s.posts ==>
            r.posts[id].postType ==
              if s.posts[id].postType == oldSlug && Renames(types, oldSlug, rec.slug) then rec.slug else s.posts[id].postType)
  {
    CommitKeepsWritten(s, h, acfActive, form, fields, oldSlug, page, useTemplate);
    WrittenEdit(s, RecordOf(form, h, fields, if useTemplate then page else 0), oldSlug);
  }

  /** Registration and notices leave the stored list and the posts as the list write left them. */
  lemma CommitKeepsWritten(s: State, h: Host, acfActive: bool, form: CptForm, fields: seq<FieldDef>,
                           oldSlug: string, page: nat, useTemplate: bool)
    requires FormValid(form, h)
    ensures var r := CommitEffect(s, h, acfActive, form, fields, oldSlug, page, useTemplate);
      var w := Written(s, RecordOf(form, h, fields, if useTemplate then page else 0), oldSlug);
      r.options == w.options && r.posts == w.posts
  {
  }

  /** The list write of an edit: replace-first in the list, re-typing of the posts on a rename. */
  lemma WrittenEdit(s: State, rec: ContentType, oldSlug: string)
    requires Truthy(oldSlug)
    ensures var types := StoredTypes(s.options);
      var w := Written(s, rec, oldSlug);
      && StoredTypes(w.options) == ReplaceFirst(types, oldSlug, rec)
      && w.posts.Keys == s.posts.Keys
      && (forall id :: id in s.posts ==>
            w.posts[id].postType ==
              if s.posts[id].postType == oldSlug && Renames(types, oldSlug, rec.slug) then rec.slug else s.posts[id].postType)
  {
  }

  /** A valid creation appends the record at the end, whatever slugs are already stored, and moves no post. */
  lemma CreateEffect(s: State, h: Host, acfActive: bool, form: CptForm, fields: seq<FieldDef>, page: nat, useTemplate: bool)
    requires FormValid(form, h)
    ensures var r := CommitEffect(s, h, acfActive, form, fields, "", page, useTemplate);
      StoredTypes(r.options) == StoredTypes(s.options) + [RecordOf(form, h, fields, if useTemplate then page else 0)]
      && r.posts == s.posts
      && r.notices[|s.notices|] == Notice("success", false)
  {
  }

  method Commit(site: Site, h: Host, acfActive: bool, form: CptForm, fields: seq<FieldDef>,
                oldSlug: string, page: nat, useTemplate: bool)
    modifies site`options, site`posts, site`notices, site`postTypes, site`fieldGroups, site`quickEdit
    ensures site.Snap() == CommitEffect(old(site.Snap()), h, acfActive, form, fields, oldSlug, page, useTemplate)
    ensures old(site.Valid()) ==> site.Valid()
  {
    ghost var s0 := site.Snap();
    if !FormValid(form, h) {
      site.AddNotice("invalid", true);
      assert site.Snap() == s0.(notices := s0.notices + [Notice("invalid", true)]);
      return;
    }
    var rec := RecordOf(form, h, fields, if useTemplate then page else 0);
    WriteList(site, rec, oldSlug);
    ghost var s2 := site.Snap();
    assert s2 == Written(s0, rec, oldSlug);
    RegisterCpt(site, h, acfActive, ArgsOf(rec));
    ghost var s3 := site.Snap();
    assert s3 == RegisterEffect(s2, h, acfActive, ArgsOf(rec));
    AddCommitNotices(site, useTemplate);
    assert site.posts.Keys == s0.posts.Keys;
  }

  /** The success notice and, for a linked template page, the template notice. */
  method AddCommitNotices(site: Site, useTemplate: bool)
    modifies site`notices
    ensures site.Snap() == old(site.Snap()).(notices := old(site.notices) + CommitNotices(useTemplate))
  {
    ghost var s0 := site.Snap();
    site.AddNotice("success", false);
    if useTemplate {
      site.AddNotice("template", false);
    }
    assert site.notices == s0.notices + CommitNotices(useTemplate);
    assert site.Snap() == s0.(notices := s0.notices + CommitNotices(useTemplate));
  }

  /** The by-reference edit loop or the append, then `update_option`. */
  method WriteList(site: Site, rec: ContentType, oldSlug: string)
    modifies site`options, site`posts
    ensures site.Snap() == Written(old(site.Snap()), rec, oldSlug)
    ensures site.posts.Keys == old(site.posts.Keys)
  {
    var types := StoredTypes(site.options);
    if Truthy(oldSlug) {
      var found;
      types, found := UpdateFirst(types, oldSlug, rec);
      if found && oldSlug != rec.slug {
        site.posts := Retyped(site.posts, oldSlug, rec.slug);
      }
    } else {
      types := types + [rec];
    }
    site.options := site.options[OptionCpts := TypeList(types)];
  }

  // ---------------------------------------------------------------------
  // delete_cpt
  // ---------------------------------------------------------------------

  /** `delete_cpt`: the first record with the slug goes, the post type is unregistered, a notice is queued. */
  function DeleteEffect(s: State, slug: string): (r: State)
    ensures StoredTypes(r.options) == RemoveFirst(StoredTypes(s.options), slug)
    ensures forall k :: k in s.options && k != OptionCpts ==> k in r.options && r.options[k] == s.options[k]
    ensures r.options.Keys == s.options.Keys + {OptionCpts}
    ensures slug !in r.postTypes
    ensures forall t :: t in s.postTypes && t != slug ==> t in r.postTypes && r.postTypes[t] == s.postTypes[t]
    ensures r.posts == s.posts && r.meta == s.meta && r.notices == s.notices + [Notice("deleted", false)]
  {
    s.(options := s.options[OptionCpts := TypeList(RemoveFirst(StoredTypes(s.options), slug))],
       postTypes := s.postTypes - {slug},
       notices := s.notices + [Notice("deleted", false)])
  }

  method DeleteCpt(site: Site, slug: string)
    modifies site`options, site`postTypes, site`notices
    ensures site.Snap() == DeleteEffect(old(site.Snap()), slug)
  {
    ghost var s0 := site.Snap();
    var types := DeleteFirst(StoredTypes(site.options), slug);
    site.options := site.options[OptionCpts := TypeList(types)];
    site.postTypes := site.postTypes - {slug};
    site.AddNotice("deleted", false);
    assert site.Snap() == s0.(options := s0.options[OptionCpts := TypeList(types)],
                              postTypes := s0.postTypes - {slug},
                              notices := s0.notices + [Notice("deleted", false)]);
  }
}
