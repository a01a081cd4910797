/**
 * `handle_form_submission` of includes/class-cpt-system.php: the fields are
 * built, then a draft template page is inserted when "use template" is
 * checked without a page id (before the form is validated), then the shared
 * commit runs with the template page stored only when "use template" is set.
 */
module CptSystem {
  import opened Php
  import opened Wp
  import opened Registry
  import opened CptStore

  /** `isset( $_POST['lw-template-page'] ) ? absint( ... ) : 0` */
  function PageArg(form: CptForm): nat {
    if form.templatePage.Some? then Absint(form.templatePage.value) else 0
  }

  /** `$use_template && ! $template_page`: a draft page is inserted. */
  predicate DraftWanted(form: CptForm) {
    form.useTemplate && PageArg(form) == 0
  }

  /** The draft page inserted for the template. */
  function DraftPage(h: Host, form: CptForm): Post {
    Post("page", TextOr(h, form.single) + " Template", "draft", "", "")
  }

  /** `$template_page` after the insert: the posted page, or the new draft when one was inserted. */
  function PageAfterInsert(form: CptForm, draftId: nat): nat {
    if DraftWanted(form) then draftId else PageArg(form)
  }

  /** The `template_page` stored: `$use_template ? $template_page : 0`. */
  function TemplatePageOf(form: CptForm, draftId: nat): nat {
    if form.useTemplate then PageAfterInsert(form, draftId) else 0
  }

  /** A posted page id written in decimal is stored as that id when "use template" is set. */
  lemma TemplatePageKept(form: CptForm, n: nat, draftId: nat)
    requires form.useTemplate && form.templatePage == Some(NatToString(n))
    ensures n != 0 ==> TemplatePageOf(form, draftId) == n
    ensures n == 0 ==> TemplatePageOf(form, draftId) == draftId && DraftWanted(form)
  {
    AbsintOfNatToString(n);
  }

  /** The host state after the whole handler. */
  function SubmitEffect(s: State, h: Host, acfActive: bool, form: CptForm, oldSlug: string): State {
    var s1 := if DraftWanted(form) then s.(posts := s.posts[s.nextId := DraftPage(h, form)], nextId := s.nextId + 1) else s;
    CommitEffect(s1, h, acfActive, form, FormFields(h, form), oldSlug, PageAfterInsert(form, s.nextId), form.useTemplate)
  }

  /**
   * An invalid form leaves the stored list and the registries untouched and
   * queues the error, yet the draft template page has already been inserted
   * when one was wanted.
   */
  lemma InvalidFormMayLeaveDraft(s: State, h: Host, acfActive: bool, form: CptForm, oldSlug: string)
    requires !FormValid(form, h)
    ensures var r := SubmitEffect(s, h, acfActive, form, oldSlug);
      r.options == s.options && r.postTypes == s.postTypes && r.fieldGroups == s.fieldGroups
      && r.notices == s.notices + [Notice("invalid", true)]
      && (DraftWanted(form) ==> r.posts == s.posts[s.nextId := DraftPage(h, form)])
      && (!DraftWanted(form) ==> r.posts == s.posts)
  {
  }

  /**
   * A valid creation appends one record, with the built fields and with
   * template page 0 unless "use template" is set.
   */
  lemma CreateStoresRecord(s: State, h: Host, acfActive: bool, form: CptForm)
    requires FormValid(form, h)
    ensures var r := SubmitEffect(s, h, acfActive, form, "");
      var types := StoredTypes(r.options);
      |types| == |StoredTypes(s.options)| + 1
      && types[..|types| - 1] == StoredTypes(s.options)
      && types[|types| - 1].slug == FormSlug(form)
      && types[|types| - 1].acfFields == FormFields(h, form)
      && types[|types| - 1].templatePage == TemplatePageOf(form, s.nextId)
  {
    var s1 := if DraftWanted(form) then s.(posts := s.posts[s.nextId := DraftPage(h, form)], nextId := s.nextId + 1) else s;
    CreateEffect(s1, h, acfActive, form, FormFields(h, form), PageAfterInsert(form, s.nextId), form.useTemplate);
  }

  method HandleFormSubmission(site: Site, h: Host, acfActive: bool, form: CptForm, oldSlug: string)
    requires site.Valid()
    modifies site`options, site`posts, site`nextId, site`notices, site`postTypes, site`fieldGroups, site`quickEdit
    ensures site.Snap() == SubmitEffect(old(site.Snap()), h, acfActive, form, oldSlug)
    ensures site.Valid()
  {
    ghost var s0 := site.Snap();
    var fields := BuildAcfFields(form, h);
    var page := PageArg(form);
    if form.useTemplate && page == 0 {
      page := site.InsertPost(DraftPage(h, form));
    }
    assert page == PageAfterInsert(form, s0.nextId);
    assert site.Snap() == if DraftWanted(form) then s0.(posts := s0.posts[s0.nextId := DraftPage(h, form)], nextId := s0.nextId + 1) else s0;
    Commit(site, h, acfActive, form, fields, oldSlug, page, form.useTemplate);
  }
}
