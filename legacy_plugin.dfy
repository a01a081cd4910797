/**
 * `handle_form_submission` of the older single-file plugin
 * (lightwork-wp-plugin.php). Its field building, validation, commit,
 * `register_cpt`, ACF registration, quick edit and `delete_cpt` are the same
 * code as the newer tree's and are the shared members of `Registry`,
 * `AcfSystem` and `CptStore`. What differs: `$use_template` and
 * `$template_page` are read only in `register_acf_fields`, as locals, so in the
 * handler they are undefined (null): no draft page is ever inserted, every
 * record stores template page 0, and no template notice is queued.
 */
module LegacyPlugin {
  import opened Php
  import opened Wp
  import opened Registry
  import opened CptStore
  import CptSystem

  /** The `template_page` this handler stores: `$use_template` is null, so always 0. */
  function StoredTemplatePage(form: CptForm): nat {
    0
  }

  /** The host state after the handler, as written. */
  function SubmitEffect(s: State, h: Host, acfActive: bool, form: CptForm, oldSlug: string): State {
    CommitEffect(s, h, acfActive, form, FormFields(h, form), oldSlug, StoredTemplatePage(form), false)
  }

  /** A valid creation here appends a record with template page 0 and inserts no post. */
  lemma CreateStoresZero(s: State, h: Host, acfActive: bool, form: CptForm)
    requires FormValid(form, h)
    ensures var r := SubmitEffect(s, h, acfActive, form, "");
      var types := StoredTypes(r.options);
      |types| == |StoredTypes(s.options)| + 1 && types[|types| - 1].templatePage == 0
      && r.posts == s.posts && r.nextId == s.nextId
  {
    CreateEffect(s, h, acfActive, form, FormFields(h, form), 0, false);
  }

  /**
   * With "use template" checked and page 7 posted, a valid creation stores
   * template page 0, where the newer handler stores 7.
   */
  lemma TemplatePageIgnored(s: State, h: Host, acfActive: bool, form: CptForm)
    requires FormValid(form, h) && form.useTemplate && form.templatePage == Some("7")
    ensures var legacy := StoredTypes(SubmitEffect(s, h, acfActive, form, "").options);
      var newer := StoredTypes(CptSystem.SubmitEffect(s, h, acfActive, form, "").options);
      |legacy| > 0 && legacy[|legacy| - 1].templatePage == 0
      && |newer| > 0 && newer[|newer| - 1].templatePage == 7
  {
    assert NatToString(7) == "7";
    CptSystem.TemplatePageKept(form, 7, s.nextId);
    CreateStoresZero(s, h, acfActive, form);
    CptSystem.CreateStoresRecord(s, h, acfActive, form);
  }

  method HandleFormSubmission(site: Site, h: Host, acfActive: bool, form: CptForm, oldSlug: string)
    modifies site`options, site`posts, site`notices, site`postTypes, site`fieldGroups, site`quickEdit
    ensures site.Snap() == SubmitEffect(old(site.Snap()), h, acfActive, form, oldSlug)
    ensures old(site.Valid()) ==> site.Valid()
  {
    var fields := BuildAcfFields(form, h);
    Commit(site, h, acfActive, form, fields, oldSlug, 0, false);
  }
}
